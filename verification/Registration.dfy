/**
 Registration of channels with epoll (src/net/epoll_poller.cpp, src/net/channel.cpp), with the
 kernel's interest set as a map. Channels are numbered in the order of their creation; any number of them may
 be made for one descriptor, at the same time or one after the other.
 */
module Registration {
  import opened Common

  const NONE_EVENT: bv32 := 0
  const READ_EVENT: bv32 := 3  // EPOLLIN | EPOLLPRI
  const WRITE_EVENT: bv32 := 4 // EPOLLOUT

  /** The index of a channel: kNew, kAdd or kDel. */
  datatype Index = New | Added | Deleted

  /** A channel: its descriptor, its events, its index, and add_to_loop_. */
  datatype ChannelState = ChannelState(fd: int, events: bv32, index: Index, addToLoop: bool)

  datatype Interest = Interest(channel: nat, events: bv32)

  datatype State = State(
    channels: seq<ChannelState>,
    channelMap: map<int, nat>,  // channel_map_
    kernel: map<int, Interest>, // the interest set of the epoll instance
    errors: nat                 // how often a failed removal was logged
  )

  datatype Operation = CtlAdd | CtlMod | CtlDel

  /** epoll_ctl: None for EEXIST and ENOENT. */
  function EpollCtl(kernel: map<int, Interest>, op: Operation, fd: int, interest: Interest)
    : Option<map<int, Interest>>
  {
    match op
    case CtlAdd => if fd in kernel then None else Some(kernel[fd := interest])
    case CtlMod => if fd in kernel then Some(kernel[fd := interest]) else None
    case CtlDel => if fd in kernel then Some(kernel - {fd}) else None
  }

  /** Lines 119 to 132 of epoll_poller.cpp: a failed removal is logged, any other failure is fatal. */
  function Update(s: State, op: Operation, c: nat): Option<State>
    requires c < |s.channels|
  {
    var ch := s.channels[c];
    match EpollCtl(s.kernel, op, ch.fd, Interest(c, ch.events))
    case Some(kernel) => Some(s.(kernel := kernel))
    case None => if op == CtlDel then Some(s.(errors := s.errors + 1)) else None
  }

  function SetIndex(s: State, c: nat, index: Index): State
    requires c < |s.channels|
  {
    s.(channels := s.channels[c := s.channels[c].(index := index)])
  }

  /** A channel changes its events, and Channel::Update notes that it belongs to the loop (channel.cpp:127). */
  function SetEvents(s: State, c: nat, events: bv32): State
    requires c < |s.channels|
  {
    s.(channels := s.channels[c := s.channels[c].(events := events, addToLoop := true)])
  }

  /** The poller's map holds exactly this channel for its descriptor. */
  predicate Mapped(s: State, c: nat)
    requires c < |s.channels|
  {
    var fd := s.channels[c].fd;
    fd in s.channelMap && s.channelMap[fd] == c
  }

  /** Lines 56 to 84 of epoll_poller.cpp. None stands for a failed assert or a fatal error. */
  function UpdateChannel(s: State, c: nat): Option<State>
    requires c < |s.channels|
  {
    var ch := s.channels[c];
    match ch.index
    case New =>
      if ch.fd in s.channelMap then None
      else Update(SetIndex(s.(channelMap := s.channelMap[ch.fd := c]), c, Added), CtlAdd, c)
    case Deleted =>
      if !Mapped(s, c) then None else Update(SetIndex(s, c, Added), CtlAdd, c)
    case Added =>
      if !Mapped(s, c) then None
      else if ch.events == NONE_EVENT then
        match Update(s, CtlDel, c)
        case None => None
        case Some(s') => Some(SetIndex(s', c, Deleted))
      else Update(s, CtlMod, c)
  }

  /** Lines 86 to 99 of epoll_poller.cpp. */
  function RemoveChannel(s: State, c: nat): Option<State>
    requires c < |s.channels|
  {
    var ch := s.channels[c];
    if !Mapped(s, c) || ch.events != NONE_EVENT || ch.index == New then None
    else
      var t := s.(channelMap := s.channelMap - {ch.fd});
      match (if ch.index == Added then Update(t, CtlDel, c) else Some(t))
      case None => None
      case Some(s') => Some(SetIndex(s', c, New))
  }

  // ---- Operations of a channel ----

  datatype Action =
    | Create(fd: int)
    | EnableReading(c: nat)
    | DisableReading(c: nat)
    | EnableWriting(c: nat)
    | DisableWriting(c: nat)
    | DisableAll(c: nat)
    | PollerRemove(c: nat)  // EpollPoller::RemoveChannel
    | ChannelRemove(c: nat) // Channel::Remove

  /** The event mask that an operation asks for. */
  function NewEvents(events: bv32, a: Action): bv32 {
    match a
    case EnableReading(_) => events | READ_EVENT
    case DisableReading(_) => events & !READ_EVENT
    case EnableWriting(_) => events | WRITE_EVENT
    case DisableWriting(_) => events & !WRITE_EVENT
    case DisableAll(_) => NONE_EVENT
    case _ => events
  }

  function Apply(s: State, a: Action): Option<State> {
    match a
    case Create(fd) =>
      Some(s.(channels := s.channels + [ChannelState(fd, NONE_EVENT, New, false)]))
    case PollerRemove(c) => if c < |s.channels| then RemoveChannel(s, c) else None
    case ChannelRemove(c) =>
      // Lines 131 to 135 of channel.cpp.
      if c < |s.channels| && s.channels[c].events != NONE_EVENT then RemoveChannel(s, c) else None
    case _ =>
      if a.c < |s.channels| then UpdateChannel(SetEvents(s, a.c, NewEvents(s.channels[a.c].events, a)), a.c)
      else None
  }

  const INIT: State := State([], map[], map[], 0)

  // ---- Agreement ----

  /** The kernel watches the descriptor on behalf of channel `c`. */
  predicate Watched(s: State, c: nat)
    requires c < |s.channels|
  {
    s.channels[c].fd in s.kernel && s.kernel[s.channels[c].fd].channel == c
  }

  /** The three views of channel `c` - its own index, the poller's map, the kernel - say the same. */
  ghost predicate Agrees(s: State, c: nat)
    requires c < |s.channels|
  {
    var ch := s.channels[c];
    && (ch.index != New <==> Mapped(s, c))
    && (ch.index == Added <==> Watched(s, c))
    && (ch.index == Added ==> s.kernel[ch.fd] == Interest(c, ch.events))
    && (ch.events != NONE_EVENT ==> ch.index == Added)
  }

  /** Neither the poller's map nor the kernel has an entry for anything else. */
  ghost predicate MapsFit(s: State) {
    && (forall fd :: fd in s.channelMap ==> s.channelMap[fd] < |s.channels| && s.channels[s.channelMap[fd]].fd == fd)
    && (forall fd :: fd in s.kernel ==> fd in s.channelMap && s.kernel[fd].channel == s.channelMap[fd])
  }

  ghost predicate Agreement(s: State) {
    s.errors == 0 && MapsFit(s) && forall c :: 0 <= c < |s.channels| ==> Agrees(s, c)
  }

  /** The assert that an update of a channel can trip: a new one must find its descriptor free in the map. */
  predicate Free(s: State, c: nat)
    requires c < |s.channels|
  {
    s.channels[c].index == New ==> s.channels[c].fd !in s.channelMap
  }

  // ---- Updates ----

  /** A channel changes its events and reports to the poller. */
  function Change(s: State, c: nat, events: bv32): Option<State>
    requires c < |s.channels|
  {
    UpdateChannel(SetEvents(s, c, events), c)
  }

  /** An update succeeds exactly if a new channel finds its descriptor free: everything else is as it asserts. */
  lemma ChangeSucceeds(s: State, c: nat, events: bv32)
    requires Agreement(s) && c < |s.channels|
    ensures Change(s, c, events).Some? <==> Free(s, c)
  {
    assert Agrees(s, c);
  }

  lemma ChangeAgreesHere(s: State, c: nat, events: bv32, s': State)
    requires Agreement(s) && c < |s.channels| && Change(s, c, events) == Some(s')
    ensures |s'.channels| == |s.channels| && Agrees(s', c)
    ensures s'.channels[c].fd == s.channels[c].fd && s'.channels[c].events == events && s'.channels[c].addToLoop
    ensures s'.errors == s.errors
  {
    assert Agrees(s, c);
  }

  /** A change of one channel is not seen by the entries of any other. */
  lemma ChangeLeaves(s: State, c: nat, events: bv32, s': State, d: nat)
    requires Agreement(s) && c < |s.channels| && Change(s, c, events) == Some(s')
    requires d < |s.channels| && d != c
    ensures |s'.channels| == |s.channels| && s'.channels[d] == s.channels[d]
    ensures Mapped(s', d) == Mapped(s, d) && Watched(s', d) == Watched(s, d)
    ensures Watched(s, d) ==> s'.kernel[s.channels[d].fd] == s.kernel[s.channels[d].fd]
  {
    assert Agrees(s, c) && Agrees(s, d);
  }

  lemma ChangeFits(s: State, c: nat, events: bv32, s': State)
    requires Agreement(s) && c < |s.channels| && Change(s, c, events) == Some(s')
    ensures MapsFit(s')
  {
    assert Agrees(s, c);
  }

  lemma ChangeAgrees(s: State, c: nat, events: bv32)
    requires Agreement(s) && c < |s.channels|
    ensures Change(s, c, events).Some? <==> Free(s, c)
    ensures Change(s, c, events).Some? ==> Agreement(Change(s, c, events).value)
  {
    ChangeSucceeds(s, c, events);
    if Change(s, c, events).Some? {
      var s' := Change(s, c, events).value;
      ChangeAgreesHere(s, c, events, s');
      ChangeFits(s, c, events, s');
      forall d | 0 <= d < |s'.channels|
        ensures Agrees(s', d)
      {
        if d != c {
          assert Agrees(s, d);
          ChangeLeaves(s, c, events, s', d);
        }
      }
    }
  }

  // ---- Removal and creation ----

  lemma RemoveLeaves(s: State, c: nat, s': State, d: nat)
    requires Agreement(s) && c < |s.channels| && RemoveChannel(s, c) == Some(s')
    requires d < |s.channels| && d != c
    ensures |s'.channels| == |s.channels| && s'.channels[d] == s.channels[d]
    ensures Mapped(s', d) == Mapped(s, d) && Watched(s', d) == Watched(s, d)
    ensures Watched(s, d) ==> s'.kernel[s.channels[d].fd] == s.kernel[s.channels[d].fd]
  {
    assert Agrees(s, c) && Agrees(s, d);
  }

  lemma RemoveAgreesHere(s: State, c: nat, s': State)
    requires Agreement(s) && c < |s.channels| && RemoveChannel(s, c) == Some(s')
    ensures |s'.channels| == |s.channels| && Agrees(s', c) && MapsFit(s') && s'.errors == 0
    ensures s.channels[c].fd !in s'.channelMap && s'.channels[c].index == New
  {
    assert Agrees(s, c);
  }

  /**
   Removal through the poller succeeds exactly on a registered channel with no events; afterwards the descriptor
   is free for any channel, this one or another.
   */
  lemma RemoveAgrees(s: State, c: nat)
    requires c < |s.channels| && Agreement(s)
    ensures RemoveChannel(s, c).Some? <==> s.channels[c].index != New && s.channels[c].events == NONE_EVENT
    ensures RemoveChannel(s, c).Some? ==>
              var s' := RemoveChannel(s, c).value;
              Agreement(s') && |s'.channels| == |s.channels|
              && forall d :: 0 <= d < |s'.channels| && s'.channels[d].fd == s.channels[c].fd ==> Free(s', d)
  {
    assert Agrees(s, c);
    if RemoveChannel(s, c).Some? {
      var s' := RemoveChannel(s, c).value;
      RemoveAgreesHere(s, c, s');
      forall d | 0 <= d < |s'.channels|
        ensures Agrees(s', d)
      {
        if d != c {
          assert Agrees(s, d);
          RemoveLeaves(s, c, s', d);
        }
      }
    }
  }

  lemma CreateAgrees(s: State, fd: int)
    requires Agreement(s)
    ensures Agreement(Apply(s, Create(fd)).value)
  {
    var s' := Apply(s, Create(fd)).value;
    forall c | 0 <= c < |s'.channels|
      ensures Agrees(s', c)
    {
      assert c < |s.channels| ==> Agrees(s, c);
    }
  }

  /** Channel::Remove can never succeed: it wants events to be there, and the poller wants none. */
  lemma ChannelRemoveAlwaysFails(s: State, c: nat)
    ensures Apply(s, ChannelRemove(c)).None?
  {
  }

  // ---- Runs ----

  /** An operation that changes the events of a channel. */
  predicate ChangesEvents(a: Action) {
    a.EnableReading? || a.DisableReading? || a.EnableWriting? || a.DisableWriting? || a.DisableAll?
  }

  /**
   Which operations succeed on an agreeing state, exactly: a change of events unless the channel is new and another
   one is registered for its descriptor; a removal through the poller of a registered channel without events;
   Channel::Remove never. Whatever succeeds keeps the agreement.
   */
  lemma ApplyAgrees(s: State, a: Action)
    requires Agreement(s) && (a.Create? || a.c < |s.channels|)
    ensures Apply(s, a).Some? <==>
              (match a
               case Create(_) => true
               case PollerRemove(c) => s.channels[c].index != New && s.channels[c].events == NONE_EVENT
               case ChannelRemove(_) => false
               case _ => Free(s, a.c))
    ensures Apply(s, a).Some? ==> Agreement(Apply(s, a).value)
  {
    match a
    case Create(fd) => CreateAgrees(s, fd);
    case PollerRemove(c) => RemoveAgrees(s, c);
    case ChannelRemove(c) => ChannelRemoveAlwaysFails(s, c);
    case _ => ChangeAgrees(s, a.c, NewEvents(s.channels[a.c].events, a));
  }

  /** Any sequence of operations in which no assert has failed so far. */
  ghost predicate IsPollerRun(states: seq<State>, actions: seq<Action>) {
    IsRun(INIT, Apply, states, actions)
  }

  /** The three views agree after every sequence of operations, and no removal ever failed in the kernel. */
  lemma {:induction false} RunAgrees(states: seq<State>, actions: seq<Action>, k: nat)
    requires IsPollerRun(states, actions) && k < |states|
    ensures Agreement(states[k])
  {
    if k == 0 {
    } else {
      assert Apply(states[k - 1], actions[k - 1]) == Some(states[k - 1 + 1]);
      RunAgrees(states, actions, k - 1);
      ApplyAgrees(states[k - 1], actions[k - 1]);
    }
  }

  /** So every ADD that is issued hits an absent descriptor, and every MOD and DEL a present one. */
  lemma KernelNeverRefuses(states: seq<State>, actions: seq<Action>, k: nat, c: nat)
    requires IsPollerRun(states, actions) && k < |states| && c < |states[k].channels|
    ensures var s, ch := states[k], states[k].channels[c];
      && (ch.index != Added && Free(s, c) ==> EpollCtl(s.kernel, CtlAdd, ch.fd, Interest(c, ch.events)).Some?)
      && (ch.index == Added ==> EpollCtl(s.kernel, CtlMod, ch.fd, Interest(c, ch.events)).Some?
                                && EpollCtl(s.kernel, CtlDel, ch.fd, Interest(c, ch.events)).Some?)
  {
    RunAgrees(states, actions, k);
    assert Agrees(states[k], c);
  }

  /** No two channels are ever registered for one descriptor. */
  lemma OneChannelPerDescriptor(states: seq<State>, actions: seq<Action>, k: nat, c: nat, d: nat)
    requires IsPollerRun(states, actions) && k < |states|
    requires c < |states[k].channels| && d < |states[k].channels|
    requires states[k].channels[c].index != New && states[k].channels[d].index != New
    requires states[k].channels[c].fd == states[k].channels[d].fd
    ensures c == d
  {
    RunAgrees(states, actions, k);
    assert Agrees(states[k], c) && Agrees(states[k], d);
  }

  /** The kernel watches every channel that wants events, for exactly these events. */
  lemma WantedEventsAreWatched(states: seq<State>, actions: seq<Action>, k: nat, c: nat)
    requires IsPollerRun(states, actions) && k < |states| && c < |states[k].channels|
    requires states[k].channels[c].events != NONE_EVENT
    ensures var s := states[k];
      s.channels[c].fd in s.kernel && s.kernel[s.channels[c].fd] == Interest(c, s.channels[c].events)
  {
    RunAgrees(states, actions, k);
    assert Agrees(states[k], c);
  }

  // ---- The destructor ----

  /** What the asserts of ~Channel demand (channel.cpp:25 and 27). */
  predicate Destructible(s: State, c: nat)
    requires c < |s.channels|
  {
    !s.channels[c].addToLoop && !Mapped(s, c)
  }

  /** What one operation does to the channels: it may add one, and change one. */
  lemma StepKeepsFlags(s: State, a: Action, s': State, c: nat)
    requires Agreement(s) && Apply(s, a) == Some(s') && c < |s.channels|
    ensures c < |s'.channels|
    ensures s'.channels[c].addToLoop <==> s.channels[c].addToLoop || (ChangesEvents(a) && a.c == c)
  {
    if ChangesEvents(a) {
      ChangeAgreesHere(s, a.c, NewEvents(s.channels[a.c].events, a), s');
      if c != a.c {
        ChangeLeaves(s, a.c, NewEvents(s.channels[a.c].events, a), s', c);
      }
    }
  }

  /** None of the first `k` operations changed the events of channel `c`. */
  ghost predicate Unused(actions: seq<Action>, k: nat, c: nat)
    requires k <= |actions|
  {
    forall i :: 0 <= i < k ==> !(ChangesEvents(actions[i]) && actions[i].c == c)
  }

  lemma UnusedSnoc(actions: seq<Action>, k: nat, c: nat)
    requires k < |actions|
    ensures Unused(actions, k + 1, c) <==> Unused(actions, k, c) && !(ChangesEvents(actions[k]) && actions[k].c == c)
  {
  }

  /**
   A channel can be destroyed exactly if its events were never changed: only Channel::Remove would take it out of
   the loop again as far as the destructor can see, and that never succeeds.
   */
  lemma {:induction false} DestructibleExactlyIfUnused(states: seq<State>, actions: seq<Action>, k: nat, c: nat)
    requires IsPollerRun(states, actions) && k < |states| && c < |states[k].channels|
    ensures Destructible(states[k], c) <==> Unused(actions, k, c)
    ensures states[k].channels[c].index != New ==> states[k].channels[c].addToLoop
  {
    if k == 0 {
    } else {
      var s, a, s' := states[k - 1], actions[k - 1], states[k - 1 + 1];
      assert Apply(s, a) == Some(s');
      RunAgrees(states, actions, k - 1);
      UnusedSnoc(actions, k - 1, c);
      if c < |s.channels| {
        DestructibleExactlyIfUnused(states, actions, k - 1, c);
        StepChangesUse(s, a, s', c);
      } else {
        NeverNamedBefore(states, actions, k - 1, c);
        JustCreated(s, a, s', c);
      }
    }
  }

  lemma StepChangesUse(s: State, a: Action, s': State, c: nat)
    requires Agreement(s) && Apply(s, a) == Some(s') && c < |s.channels|
    requires s.channels[c].index != New ==> s.channels[c].addToLoop
    ensures c < |s'.channels| && (s'.channels[c].index != New ==> s'.channels[c].addToLoop)
    ensures Destructible(s', c) <==> Destructible(s, c) && !(ChangesEvents(a) && a.c == c)
  {
    ApplyAgrees(s, a);
    StepKeepsFlags(s, a, s', c);
    StepRegisters(s, a, s', c);
    assert Agrees(s, c) && Agrees(s', c);
  }

  lemma JustCreated(s: State, a: Action, s': State, c: nat)
    requires Agreement(s) && Apply(s, a) == Some(s') && |s.channels| <= c < |s'.channels|
    ensures Destructible(s', c) && s'.channels[c].index == New && !(ChangesEvents(a) && a.c == c)
  {
    if ChangesEvents(a) {
      ChangeAgreesHere(s, a.c, NewEvents(s.channels[a.c].events, a), s');
    } else if a.PollerRemove? {
      RemoveAgreesHere(s, a.c, s');
    }
  }

  /** Only a change of its own events registers a channel. */
  lemma StepRegisters(s: State, a: Action, s': State, c: nat)
    requires Agreement(s) && Apply(s, a) == Some(s') && c < |s.channels|
    ensures c < |s'.channels|
    ensures s'.channels[c].index != New ==> s.channels[c].index != New || (ChangesEvents(a) && a.c == c)
  {
    if ChangesEvents(a) && c != a.c {
      ChangeLeaves(s, a.c, NewEvents(s.channels[a.c].events, a), s', c);
    } else if a.PollerRemove? && c != a.c {
      RemoveLeaves(s, a.c, s', c);
    }
  }

  lemma {:induction false} NeverNamedBefore(states: seq<State>, actions: seq<Action>, k: nat, c: nat)
    requires IsPollerRun(states, actions) && k < |states| && c >= |states[k].channels|
    ensures Unused(actions, k, c)
  {
    if k == 0 {
    } else {
      var i := k - 1;
      assert Apply(states[i], actions[i]) == Some(states[i + 1]);
      RunAgrees(states, actions, i);
      if c < |states[i].channels| {
        StepKeepsFlags(states[i], actions[i], states[i + 1], c);
        assert false;
      }
      NeverNamedBefore(states, actions, i, c);
    }
  }

  // ---- The converse: a channel that is watched need not want any events ----

  /** The kernel watches channel `c`, which wants nothing. */
  predicate WatchedInVain(s: State, c: nat)
    requires c < |s.channels|
  {
    Watched(s, c) && s.channels[c].events == NONE_EVENT
  }

  /**
   After any change of events the kernel watches the channel if and only if the channel now wants something or
   was not watched before: a channel that is not watched is always added, with whatever mask.
   */
  lemma WatchedAfterChange(s: State, a: Action)
    requires Agreement(s) && ChangesEvents(a) && a.c < |s.channels| && Free(s, a.c)
    ensures Apply(s, a).Some? && |Apply(s, a).value.channels| == |s.channels|
    ensures var s', before := Apply(s, a).value, s.channels[a.c];
      && s'.channels[a.c].events == NewEvents(before.events, a)
      && (Watched(s', a.c) <==> NewEvents(before.events, a) != NONE_EVENT || before.index != Added)
  {
    var events := NewEvents(s.channels[a.c].events, a);
    ChangeSucceeds(s, a.c, events);
    ChangeAgreesHere(s, a.c, events, Apply(s, a).value);
    ChangedIndex(s, a.c, events, Apply(s, a).value);
    assert Agrees(Apply(s, a).value, a.c);
  }

  lemma ChangedIndex(s: State, c: nat, events: bv32, s': State)
    requires Agreement(s) && c < |s.channels| && Change(s, c, events) == Some(s')
    ensures |s'.channels| == |s.channels|
    ensures s'.channels[c].index == Added <==> events != NONE_EVENT || s.channels[c].index != Added
  {
    assert Agrees(s, c);
  }

  /** An operation that takes away the last events of a channel that is not watched, or leaves it without. */
  ghost predicate AddsInVain(s: State, a: Action) {
    ChangesEvents(a) && a.c < |s.channels|
    && NewEvents(s.channels[a.c].events, a) == NONE_EVENT && s.channels[a.c].index != Added
  }

  ghost predicate NoneInVain(s: State) {
    forall c :: 0 <= c < |s.channels| ==> !WatchedInVain(s, c)
  }

  /** An operation that changes no events makes nothing watched in vain. */
  lemma OtherwiseNoneInVain(s: State, a: Action, s': State)
    requires Agreement(s) && !ChangesEvents(a) && Apply(s, a) == Some(s') && NoneInVain(s)
    ensures NoneInVain(s')
  {
    forall d | 0 <= d < |s'.channels|
      ensures !WatchedInVain(s', d)
    {
      if a.Create? {
        assert d < |s.channels| ==> !WatchedInVain(s, d);
      } else if d == a.c {
        RemoveAgreesHere(s, d, s');
      } else {
        RemoveLeaves(s, a.c, s', d);
        assert !WatchedInVain(s, d);
      }
    }
  }

  /** One operation: it makes a channel watched in vain exactly if it adds in vain. */
  lemma VainExactlyByAdding(s: State, a: Action, s': State)
    requires Agreement(s) && Apply(s, a) == Some(s') && NoneInVain(s)
    ensures NoneInVain(s') <==> !AddsInVain(s, a)
  {
    if ChangesEvents(a) {
      var events := NewEvents(s.channels[a.c].events, a);
      ChangeSucceeds(s, a.c, events);
      WatchedAfterChange(s, a);
      assert WatchedInVain(s', a.c) <==> AddsInVain(s, a);
      forall d | 0 <= d < |s.channels| && d != a.c
        ensures !WatchedInVain(s', d)
      {
        ChangeLeaves(s, a.c, events, s', d);
        assert !WatchedInVain(s, d);
      }
    } else {
      OtherwiseNoneInVain(s, a, s');
    }
  }

  /**
   The exact condition for the converse, over whole runs: every channel that the kernel watches wants events,
   all along, if and only if no operation leaves an unwatched channel without events. DisableReading on a
   new channel is enough to break it.
   */
  lemma {:induction false} WatchedWantEventsExactlyWhen(states: seq<State>, actions: seq<Action>, k: nat)
    requires IsPollerRun(states, actions) && k <= |actions|
    ensures (forall i :: 0 <= i <= k ==> NoneInVain(states[i]))
       <==> (forall i :: 0 <= i < k ==> !AddsInVain(states[i], actions[i]))
  {
    if k == 0 {
      assert states[0] == INIT;
    } else {
      WatchedWantEventsExactlyWhen(states, actions, k - 1);
      if NoneInVain(states[k - 1]) {
        LastAction(states, actions, k - 1);
      }
    }
  }

  lemma LastAction(states: seq<State>, actions: seq<Action>, i: nat)
    requires IsPollerRun(states, actions) && i < |actions| && NoneInVain(states[i])
    ensures NoneInVain(states[i + 1]) <==> !AddsInVain(states[i], actions[i])
  {
    RunAgrees(states, actions, i);
    VainExactlyByAdding(states[i], actions[i], states[i + 1]);
  }

  /** A concrete run: one new channel, and DisableReading. */
  lemma DisableReadingAddsInVain() returns (states: seq<State>, actions: seq<Action>)
    ensures IsPollerRun(states, actions) && |actions| == 2
    ensures |states[2].channels| == 1 && WatchedInVain(states[2], 0)
  {
    actions := [Create(5), DisableReading(0)];
    var s1 := Apply(INIT, Create(5)).value;
    CreateAgrees(INIT, 5);
    WatchedAfterChange(s1, DisableReading(0));
    states := [INIT, s1, Apply(s1, DisableReading(0)).value];
  }

  /** DisableAll in particular takes a channel out of the kernel's set if it was in, and puts it in if not. */
  lemma DisableAllToggles(s: State, c: nat)
    requires Agreement(s) && c < |s.channels| && Free(s, c)
    ensures Apply(s, DisableAll(c)).Some? && |Apply(s, DisableAll(c)).value.channels| == |s.channels|
    ensures Watched(Apply(s, DisableAll(c)).value, c) <==> !Watched(s, c)
  {
    WatchedAfterChange(s, DisableAll(c));
    assert Agrees(s, c);
  }

  /** A descriptor is reused: its first channel is removed, and a second one takes its place. */
  lemma DescriptorReused() returns (states: seq<State>, actions: seq<Action>)
    ensures IsPollerRun(states, actions) && |states[|actions|].channels| == 2
    ensures var s := states[|actions|];
      s.channels[0].fd == s.channels[1].fd && Watched(s, 1) && s.channels[0].index == New
  {
    actions := [Create(5), EnableReading(0), DisableAll(0), PollerRemove(0), Create(5), EnableReading(1)];
    var s1 := Apply(INIT, Create(5)).value;
    assert s1.channels == [ChannelState(5, NONE_EVENT, New, false)];
    assert NONE_EVENT | READ_EVENT != NONE_EVENT;
    var s2 := Apply(s1, EnableReading(0)).value;
    var s3 := Apply(s2, DisableAll(0)).value;
    var s4 := Apply(s3, PollerRemove(0)).value;
    var s5 := Apply(s4, Create(5)).value;
    var s6 := Apply(s5, EnableReading(1)).value;
    states := [INIT, s1, s2, s3, s4, s5, s6];
  }
}
