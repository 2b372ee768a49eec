/**
 What the kernel watches, told by the calls alone: a channel is watched for input exactly while the last of its calls
 that were about reading asked for it, and for output likewise.
 */
module EventHistory {
  import opened Common
  import opened Registration

  // From <sys/epoll.h>.
  const EPOLLIN: bv32 := 1
  const EPOLLPRI: bv32 := 2
  const EPOLLOUT: bv32 := 4

  /** Whether channel `c` asks for input after a call, if it did or did not before. */
  predicate ReadingAfter(wants: bool, a: Action, c: nat) {
    a == EnableReading(c) || (wants && a != DisableReading(c) && a != DisableAll(c))
  }

  predicate WritingAfter(wants: bool, a: Action, c: nat) {
    a == EnableWriting(c) || (wants && a != DisableWriting(c) && a != DisableAll(c))
  }

  /** The last call of channel `c` about reading, among the first `k` actions, asked for it. */
  predicate WantsReading(actions: seq<Action>, k: nat, c: nat)
    requires k <= |actions|
  {
    k > 0 && ReadingAfter(WantsReading(actions, k - 1, c), actions[k - 1], c)
  }

  predicate WantsWriting(actions: seq<Action>, k: nat, c: nat)
    requires k <= |actions|
  {
    k > 0 && WritingAfter(WantsWriting(actions, k - 1, c), actions[k - 1], c)
  }

  /** Input is watched by two bits, output by one. */
  function Mask(reading: bool, writing: bool): bv32 {
    if reading then if writing then 7 else 3 else if writing then 4 else 0
  }

  lemma MaskBits(reading: bool, writing: bool)
    ensures Mask(reading, writing) & EPOLLIN == (if reading then EPOLLIN else 0)
    ensures Mask(reading, writing) & EPOLLPRI == (if reading then EPOLLPRI else 0)
    ensures Mask(reading, writing) & EPOLLOUT == (if writing then EPOLLOUT else 0)
    ensures Mask(reading, writing) == NONE_EVENT <==> !reading && !writing
    ensures READ_EVENT == EPOLLIN | EPOLLPRI && WRITE_EVENT == EPOLLOUT
  {
  }

  /** What a call of channel `c` does to its mask. */
  lemma CallMasks(reading: bool, writing: bool, a: Action, c: nat)
    requires ChangesEvents(a) && a.c == c
    ensures NewEvents(Mask(reading, writing), a) == Mask(ReadingAfter(reading, a, c), WritingAfter(writing, a, c))
  {
  }

  /** One operation, and the events of one channel. */
  lemma StepEvents(s: State, a: Action, s': State, c: nat)
    requires Agreement(s) && Apply(s, a) == Some(s') && c < |s.channels|
    ensures c < |s'.channels|
    ensures s'.channels[c].events ==
            if ChangesEvents(a) && a.c == c then NewEvents(s.channels[c].events, a) else s.channels[c].events
  {
    if ChangesEvents(a) {
      var events := NewEvents(s.channels[a.c].events, a);
      ChangeAgreesHere(s, a.c, events, s');
      if c != a.c {
        ChangeLeaves(s, a.c, events, s', c);
      }
    } else if a.PollerRemove? && c != a.c {
      RemoveLeaves(s, a.c, s', c);
    }
  }

  lemma StepTells(s: State, a: Action, s': State, c: nat, reading: bool, writing: bool)
    requires Agreement(s) && Apply(s, a) == Some(s') && c < |s.channels|
    requires s.channels[c].events == Mask(reading, writing)
    ensures c < |s'.channels|
    ensures s'.channels[c].events == Mask(ReadingAfter(reading, a, c), WritingAfter(writing, a, c))
  {
    StepEvents(s, a, s', c);
    if ChangesEvents(a) && a.c == c {
      CallMasks(reading, writing, a, c);
    }
  }

  lemma {:induction false} UnusedWantsNothing(actions: seq<Action>, k: nat, c: nat)
    requires k <= |actions| && Unused(actions, k, c)
    ensures !WantsReading(actions, k, c) && !WantsWriting(actions, k, c)
  {
    if k == 0 {
    } else {
      UnusedSnoc(actions, k - 1, c);
      UnusedWantsNothing(actions, k - 1, c);
    }
  }

  /** The events of every channel are those that its calls have asked for, over any run. */
  lemma {:induction false} EventsTell(states: seq<State>, actions: seq<Action>, k: nat, c: nat)
    requires IsPollerRun(states, actions) && k < |states| && c < |states[k].channels|
    ensures states[k].channels[c].events == Mask(WantsReading(actions, k, c), WantsWriting(actions, k, c))
  {
    if k == 0 {
    } else {
      var i := k - 1;
      var s, a, s' := states[i], actions[i], states[i + 1];
      assert Apply(s, a) == Some(s');
      RunAgrees(states, actions, i);
      if c < |s.channels| {
        EventsTell(states, actions, i, c);
        StepTells(s, a, s', c, WantsReading(actions, i, c), WantsWriting(actions, i, c));
      } else {
        NeverNamedBefore(states, actions, i, c);
        JustCreated(s, a, s', c);
        CreatedIdle(s, a, s', c);
        UnusedSnoc(actions, i, c);
        UnusedWantsNothing(actions, k, c);
      }
    }
  }

  lemma CreatedIdle(s: State, a: Action, s': State, c: nat)
    requires Agreement(s) && Apply(s, a) == Some(s') && |s.channels| <= c < |s'.channels|
    ensures s'.channels[c].events == NONE_EVENT
  {
    if ChangesEvents(a) {
      ChangeAgreesHere(s, a.c, NewEvents(s.channels[a.c].events, a), s');
    } else if a.PollerRemove? {
      RemoveAgreesHere(s, a.c, s');
    }
  }

  /**
   What the kernel's entry of a channel says, bit by bit, over any run: EPOLLIN and EPOLLPRI exactly if the channel's
   last call about reading asked for it, EPOLLOUT exactly if its last call about writing did. A channel whose calls
   ask for anything has such an entry.
   */
  lemma WatchedForWhatIsAsked(states: seq<State>, actions: seq<Action>, k: nat, c: nat)
    requires IsPollerRun(states, actions) && k < |states| && c < |states[k].channels|
    ensures WantsReading(actions, k, c) || WantsWriting(actions, k, c) ==> Watched(states[k], c)
    ensures Watched(states[k], c) ==>
              var entry := states[k].kernel[states[k].channels[c].fd];
              && entry.channel == c
              && entry.events & EPOLLIN == (if WantsReading(actions, k, c) then EPOLLIN else 0)
              && entry.events & EPOLLPRI == (if WantsReading(actions, k, c) then EPOLLPRI else 0)
              && entry.events & EPOLLOUT == (if WantsWriting(actions, k, c) then EPOLLOUT else 0)
              && entry.events <= EPOLLIN | EPOLLPRI | EPOLLOUT
  {
    RunAgrees(states, actions, k);
    assert Agrees(states[k], c);
    EventsTell(states, actions, k, c);
    MaskBits(WantsReading(actions, k, c), WantsWriting(actions, k, c));
    assert EPOLLIN | EPOLLPRI | EPOLLOUT == 7;
  }

  // ---- Registration ----

  /** Whether channel `c` is registered with the poller after a call, if it was or was not before. */
  predicate RegisteredAfter(registered: bool, a: Action, c: nat) {
    (ChangesEvents(a) && a.c == c) || (registered && a != PollerRemove(c))
  }

  /**
   Whether the kernel watches channel `c` after a call: a change that leaves events always does it, and one that
   leaves none turns it round.
   */
  predicate WatchedAfter(watched: bool, wants: bool, a: Action, c: nat) {
    if ChangesEvents(a) && a.c == c then wants || !watched else watched && a != PollerRemove(c)
  }

  predicate IsRegistered(actions: seq<Action>, k: nat, c: nat)
    requires k <= |actions|
  {
    k > 0 && RegisteredAfter(IsRegistered(actions, k - 1, c), actions[k - 1], c)
  }

  predicate IsWatched(actions: seq<Action>, k: nat, c: nat)
    requires k <= |actions|
  {
    k > 0 && WatchedAfter(IsWatched(actions, k - 1, c), WantsReading(actions, k, c) || WantsWriting(actions, k, c),
                          actions[k - 1], c)
  }

  lemma {:induction false} UnusedIsNowhere(actions: seq<Action>, k: nat, c: nat)
    requires k <= |actions| && Unused(actions, k, c)
    ensures !IsRegistered(actions, k, c) && !IsWatched(actions, k, c)
  {
    if k == 0 {
    } else {
      UnusedSnoc(actions, k - 1, c);
      UnusedIsNowhere(actions, k - 1, c);
    }
  }

  lemma StepRegistration(s: State, a: Action, s': State, c: nat)
    requires Agreement(s) && Apply(s, a) == Some(s') && c < |s.channels|
    ensures c < |s'.channels|
    ensures s'.channels[c].index != New <==> RegisteredAfter(s.channels[c].index != New, a, c)
    ensures s'.channels[c].index == Added <==>
              WatchedAfter(s.channels[c].index == Added, s'.channels[c].events != NONE_EVENT, a, c)
  {
    StepEvents(s, a, s', c);
    if ChangesEvents(a) {
      var events := NewEvents(s.channels[a.c].events, a);
      ChangeAgreesHere(s, a.c, events, s');
      ChangedIndex(s, a.c, events, s');
      if c != a.c {
        ChangeLeaves(s, a.c, events, s', c);
      } else {
        ChangeRegisters(s, c, events, s');
      }
    } else if a.PollerRemove? {
      RemoveAgreesHere(s, a.c, s');
      if c != a.c {
        RemoveLeaves(s, a.c, s', c);
      }
    }
  }

  lemma ChangeRegisters(s: State, c: nat, events: bv32, s': State)
    requires Agreement(s) && c < |s.channels| && Change(s, c, events) == Some(s')
    ensures c < |s'.channels| && s'.channels[c].index != New
  {
    assert Agrees(s, c);
  }

  /**
   Over any run: a channel is registered for its descriptor from its first change of events until it is removed, and
   the kernel watches it exactly as the sequence of its calls says.
   */
  lemma {:induction false} RegistrationTells(states: seq<State>, actions: seq<Action>, k: nat, c: nat)
    requires IsPollerRun(states, actions) && k < |states| && c < |states[k].channels|
    ensures Mapped(states[k], c) <==> IsRegistered(actions, k, c)
    ensures Watched(states[k], c) <==> IsWatched(actions, k, c)
  {
    RunAgrees(states, actions, k);
    assert Agrees(states[k], c);
    if k == 0 {
    } else {
      var i := k - 1;
      var s, a, s' := states[i], actions[i], states[i + 1];
      assert Apply(s, a) == Some(s');
      RunAgrees(states, actions, i);
      if c < |s.channels| {
        RegistrationTells(states, actions, i, c);
        assert Agrees(s, c);
        StepRegistration(s, a, s', c);
        EventsTell(states, actions, k, c);
        MaskBits(WantsReading(actions, k, c), WantsWriting(actions, k, c));
      } else {
        NeverNamedBefore(states, actions, i, c);
        JustCreated(s, a, s', c);
        UnusedSnoc(actions, i, c);
        UnusedIsNowhere(actions, k, c);
      }
    }
  }

  // ---- Single calls ----

  /** The entry of channel `c` in the kernel. */
  function Entry(s: State, c: nat): bv32
    requires c < |s.channels| && Watched(s, c)
  {
    s.kernel[s.channels[c].fd].events
  }

  /**
   What one call does to the kernel's entry, after any run: EnableReading leaves the channel watched for input, and
   for output exactly if it asked for that before; and so on for the other calls.
   */
  lemma CallWatches(states: seq<State>, actions: seq<Action>, k: nat, c: nat)
    requires IsPollerRun(states, actions) && k < |actions| && c < |states[k].channels|
    requires ChangesEvents(actions[k]) && actions[k].c == c
    ensures c < |states[k + 1].channels|
    ensures var reading, writing := WantsReading(actions, k, c), WantsWriting(actions, k, c);
      var s' := states[k + 1];
      match actions[k]
      case EnableReading(_) => Watched(s', c) && Entry(s', c) == (if writing then 7 else 3)
      case EnableWriting(_) => Watched(s', c) && Entry(s', c) == (if reading then 7 else 4)
      case DisableReading(_) => writing ==> Watched(s', c) && Entry(s', c) == 4
      case DisableWriting(_) => reading ==> Watched(s', c) && Entry(s', c) == 3
      case _ => s'.channels[c].events == 0
  {
    var s, a, s' := states[k], actions[k], states[k + 1];
    assert Apply(s, a) == Some(s');
    RunAgrees(states, actions, k);
    RunAgrees(states, actions, k + 1);
    StepEvents(s, a, s', c);
    EventsTell(states, actions, k + 1, c);
    assert Agrees(s', c);
  }
}
