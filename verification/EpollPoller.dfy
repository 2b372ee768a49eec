/**
 src/net/epoll_poller.cpp and src/net/channel.cpp on channel objects. `view` is the state of module
 Registration, which every method keeps in step with the objects.
 */
module EpollPoller {
  import opened Common
  import opened Registration
  import opened EventHistory
  import Spec = Registration

  class Channel {
    const fd: int
    var events: bv32
    var index: Index
    var addToLoop: bool

    ghost function View(): ChannelState
      reads this
    {
      ChannelState(fd, events, index, addToLoop)
    }

    constructor (fd: int)
      ensures View() == ChannelState(fd, NONE_EVENT, New, false)
    {
      this.fd := fd;
      events, index, addToLoop := NONE_EVENT, New, false;
    }

    /** The new events are noted, and reported to the poller. */
    method Become(poller: EpollPoller, ghost c: nat, newEvents: bv32, ghost a: Action)
      requires poller.Valid() && c < |poller.channels| && poller.channels[c] == this
      requires index == New ==> fd !in poller.channelMap
      requires ChangesEvents(a) && a.c == c && newEvents == NewEvents(events, a)
      modifies poller, this
      ensures poller.Valid() && poller.channels == old(poller.channels)
      ensures Some(poller.view) == Apply(old(poller.view), a)
      ensures events == newEvents && poller.Shows(this)
    {
      ghost var was := events;
      events := newEvents;
      poller.Changed(this, c, was, a);
      poller.ShowsEach(c);
    }

    /** Lines 82 to 85 of channel.cpp. */
    method EnableReading(poller: EpollPoller, ghost c: nat)
      requires poller.Valid() && c < |poller.channels| && poller.channels[c] == this
      requires index == New ==> fd !in poller.channelMap
      modifies poller, this
      ensures poller.Valid() && poller.channels == old(poller.channels)
      ensures Some(poller.view) == Apply(old(poller.view), Spec.EnableReading(c))
      ensures poller.Shows(this) && events == old(events) | READ_EVENT
    {
      Become(poller, c, events | READ_EVENT, Spec.EnableReading(c));
    }

    /** Lines 87 to 90. */
    method DisableReading(poller: EpollPoller, ghost c: nat)
      requires poller.Valid() && c < |poller.channels| && poller.channels[c] == this
      requires index == New ==> fd !in poller.channelMap
      modifies poller, this
      ensures poller.Valid() && poller.channels == old(poller.channels)
      ensures Some(poller.view) == Apply(old(poller.view), Spec.DisableReading(c))
      ensures poller.Shows(this) && events == old(events) & !READ_EVENT
    {
      Become(poller, c, events & !READ_EVENT, Spec.DisableReading(c));
    }

    /** Lines 92 to 95. */
    method EnableWriting(poller: EpollPoller, ghost c: nat)
      requires poller.Valid() && c < |poller.channels| && poller.channels[c] == this
      requires index == New ==> fd !in poller.channelMap
      modifies poller, this
      ensures poller.Valid() && poller.channels == old(poller.channels)
      ensures Some(poller.view) == Apply(old(poller.view), Spec.EnableWriting(c))
      ensures poller.Shows(this) && events == old(events) | WRITE_EVENT
    {
      Become(poller, c, events | WRITE_EVENT, Spec.EnableWriting(c));
    }

    /** Lines 97 to 100. */
    method DisableWriting(poller: EpollPoller, ghost c: nat)
      requires poller.Valid() && c < |poller.channels| && poller.channels[c] == this
      requires index == New ==> fd !in poller.channelMap
      modifies poller, this
      ensures poller.Valid() && poller.channels == old(poller.channels)
      ensures Some(poller.view) == Apply(old(poller.view), Spec.DisableWriting(c))
      ensures poller.Shows(this) && events == old(events) & !WRITE_EVENT
    {
      Become(poller, c, events & !WRITE_EVENT, Spec.DisableWriting(c));
    }

    /** Lines 102 to 105. */
    method DisableAll(poller: EpollPoller, ghost c: nat)
      requires poller.Valid() && c < |poller.channels| && poller.channels[c] == this
      requires index == New ==> fd !in poller.channelMap
      modifies poller, this
      ensures poller.Valid() && poller.channels == old(poller.channels)
      ensures Some(poller.view) == Apply(old(poller.view), Spec.DisableAll(c))
      ensures poller.Shows(this) && events == NONE_EVENT
    {
      Become(poller, c, NONE_EVENT, Spec.DisableAll(c));
    }
  }

  class EpollPoller {
    var channelMap: map<int, Channel>
    var kernel: map<int, (Channel, bv32)> // the interest set of the epoll instance
    ghost var channels: seq<Channel>      // every channel of this loop
    ghost var view: State

    /** The poller's map and the kernel's set are those of the value-level state. */
    ghost predicate MapsTied()
      reads this
    {
      && channelMap.Keys == view.channelMap.Keys
      && (forall fd :: fd in view.channelMap ==>
            view.channelMap[fd] < |channels| && channelMap[fd] == channels[view.channelMap[fd]])
      && kernel.Keys == view.kernel.Keys
      && (forall fd :: fd in view.kernel ==>
            view.kernel[fd].channel < |channels|
            && kernel[fd] == (channels[view.kernel[fd].channel], view.kernel[fd].events))
    }

    /** The objects show the value-level state. */
    ghost predicate Tied()
      reads this, channels
    {
      && MapsTied() && |channels| == |view.channels|
      && (forall c, d :: 0 <= c < d < |channels| ==> channels[c] != channels[d])
      && (forall c :: 0 <= c < |channels| ==>
            channels[c].View() == view.channels[c])
    }

    /** The objects show the value-level state, except that channel `c` already has its new events. */
    ghost predicate TiedBut(c: nat)
      reads this, channels
    {
      && MapsTied() && c < |channels| == |view.channels|
      && (forall d, e :: 0 <= d < e < |channels| ==> channels[d] != channels[e])
      && (forall d :: 0 <= d < |channels| ==>
            (if d == c then channels[d].View().(events := view.channels[c].events) else channels[d].View())
            == view.channels[d])
    }

    ghost predicate Valid()
      reads this, channels
    {
      Tied() && Agreement(view)
    }

    /** A channel that wants events has an entry of its own in the kernel, with exactly these events. */
    predicate Shows(ch: Channel)
      reads this, ch
    {
      ch.events == NONE_EVENT || (ch.fd in kernel && kernel[ch.fd] == (ch, ch.events))
    }

    lemma ShowsEach(c: nat)
      requires Valid() && c < |channels|
      ensures Shows(channels[c])
    {
      assert Agrees(view, c) && channels[c].View() == view.channels[c];
    }

    /**
     The entry that the kernel has for a channel object after any run of calls: it is watched for input and for output
     exactly as its own last calls have asked.
     */
    lemma ShowsWhatIsAsked(states: seq<State>, actions: seq<Action>, c: nat)
      requires Valid() && c < |channels| && IsPollerRun(states, actions) && states[|actions|] == view
      ensures var asked := Mask(WantsReading(actions, |actions|, c), WantsWriting(actions, |actions|, c));
        && channels[c].events == asked
        && (asked != NONE_EVENT ==> channels[c].fd in kernel && kernel[channels[c].fd] == (channels[c], asked))
    {
      EventsTell(states, actions, |actions|, c);
      ShowsEach(c);
      assert channels[c].View() == view.channels[c];
    }

    constructor ()
      ensures Valid() && view == INIT && channels == []
    {
      channelMap, kernel, channels, view := map[], map[], [], INIT;
    }

    /** A new channel for any descriptor. */
    method Create(fd: int) returns (ch: Channel)
      requires Valid()
      modifies this
      ensures Valid() && fresh(ch) && channels == old(channels) + [ch]
      ensures Some(view) == Apply(old(view), Spec.Create(fd))
    {
      ApplyAgrees(view, Spec.Create(fd));
      ch := new Channel(fd);
      channels := channels + [ch];
      view := Apply(view, Spec.Create(fd)).value;
    }

    /** The index of a channel changes. */
    method SetIndex(ch: Channel, ghost c: nat, index: Index)
      requires Tied() && c < |channels| && channels[c] == ch
      modifies this`view, ch`index
      ensures Tied() && view == Spec.SetIndex(old(view), c, index)
    {
      ch.index := index;
      view := Spec.SetIndex(view, c, index);
    }

    /** Lines 119 to 132 of epoll_poller.cpp. */
    method Update(op: Operation, ch: Channel, ghost c: nat)
      requires Tied() && c < |channels| && channels[c] == ch && Spec.Update(view, op, c).Some?
      modifies this`kernel, this`view
      ensures Tied() && Some(view) == Spec.Update(old(view), op, c)
    {
      view := Spec.Update(view, op, c).value;
      if op == CtlAdd || op == CtlMod {
        kernel := kernel[ch.fd := (ch, ch.events)];
      } else {
        kernel := kernel - {ch.fd};
      }
    }

    /** Lines 56 to 84. */
    method UpdateChannel(ch: Channel, ghost c: nat)
      requires Tied() && c < |channels| && channels[c] == ch && Spec.UpdateChannel(view, c).Some?
      modifies this`channelMap, this`kernel, this`view, ch`index
      ensures Tied() && Some(view) == Spec.UpdateChannel(old(view), c)
    {
      if ch.index == New || ch.index == Deleted {
        if ch.index == New {
          assert ch.fd !in channelMap;
          channelMap := channelMap[ch.fd := ch];
          view := view.(channelMap := view.channelMap[ch.fd := c]);
        } else {
          assert ch.fd in channelMap && channelMap[ch.fd] == ch;
        }
        SetIndex(ch, c, Added);
        Update(CtlAdd, ch, c);
      } else {
        assert ch.fd in channelMap && channelMap[ch.fd] == ch;
        if ch.events == NONE_EVENT {
          Update(CtlDel, ch, c);
          SetIndex(ch, c, Deleted);
        } else {
          Update(CtlMod, ch, c);
        }
      }
    }

    /** Lines 126 to 129 of channel.cpp, after `ch` has changed its events from `was` as `a` asks. */
    method Changed(ch: Channel, ghost c: nat, ghost was: bv32, ghost a: Action)
      requires c < |channels| && channels[c] == ch && Agreement(view) && c < |view.channels|
      requires ChangesEvents(a) && a.c == c
      requires view.channels[c].events == was && ch.events == NewEvents(was, a)
      requires TiedBut(c) && Free(view, c)
      modifies this`channelMap, this`kernel, this`view, ch`index, ch`addToLoop
      ensures Valid() && Some(view) == Apply(old(view), a)
    {
      ApplyAgrees(view, a);
      ch.addToLoop := true;
      view := SetEvents(view, c, NewEvents(was, a));
      UpdateChannel(ch, c);
    }

    /** The erase at line 94: the map does not name the channel any more. */
    method Erase(ch: Channel, ghost c: nat)
      requires Tied() && c < |channels| && channels[c] == ch
      modifies this`channelMap, this`view
      ensures Tied() && view == old(view).(channelMap := old(view).channelMap - {ch.fd})
    {
      channelMap := channelMap - {ch.fd};
      view := view.(channelMap := view.channelMap - {ch.fd});
    }

    /** Lines 86 to 99; the erase is part of an assert, which is taken to be compiled in. */
    method RemoveChannel(ch: Channel, ghost c: nat)
      requires Valid() && c < |channels| && channels[c] == ch
      requires ch.index != New && ch.events == NONE_EVENT
      modifies this`channelMap, this`kernel, this`view, ch`index
      ensures Valid() && Some(view) == Apply(old(view), PollerRemove(c))
    {
      ApplyAgrees(view, PollerRemove(c));
      assert Agrees(view, c);
      assert ch.fd in channelMap && channelMap[ch.fd] == ch;
      Erase(ch, c);
      if ch.index == Added {
        Update(CtlDel, ch, c);
      }
      SetIndex(ch, c, New);
    }
  }
}
