/** The outbox as the object the server keeps: fields changed in place, and methods that,
    left alone, do the steps of the step system one after another. */
module OutboxObject {
  import opened Decimal
  import S = Outbox

  datatype Enqueue = Queued | SoftLimit | SlowConsumer | Dropped

  /** Whoever `frame` is from holds the queue lock to push it. */
  predicate Pushing(s: S.State, frame: S.Frame) {
    match frame.from
    case FromReader => s.reader == S.Holds(frame.text) && frame.no == s.readerNo
    case FromPublisher(p) =>
      && p < |s.tasks| && s.tasks[p].pc == S.Locked && s.tasks[p].todo != []
      && frame.text == s.tasks[p].todo[0] && frame.no == s.tasks[p].no
  }

  /** The two steps of that push. */
  function Pushed(s: S.State, frame: S.Frame): S.State
    requires Pushing(s, frame)
  {
    match frame.from
    case FromReader => S.Next(S.Next(s, S.ReaderAdd), S.ReaderSettle)
    case FromPublisher(p) => S.Next(S.Next(s, S.AddBytes(p)), S.Settle(p))
  }

  /** What a push does to the queue, whoever makes it. */
  predicate Took(s: S.State, s': S.State, frame: S.Frame) {
    var accepted := s.pending + |frame.text| <= s.hard && s.receiving;
    && s'.pending == s.pending + (if accepted then |frame.text| else 0)
    && s'.queue == s.queue + (if accepted then [frame] else [])
    && s'.soft == s.soft && s'.hard == s.hard && s'.closing == s.closing && s'.receiving == s.receiving
  }

  lemma PushRoom(s: S.State, frame: S.Frame)
    requires S.Exact(s) && Pushing(s, frame)
    ensures s.pending + |frame.text| < U64 && (!s.receiving ==> S.Closed(s))
  {
    match frame.from
    case FromReader => assert s.lock == S.ByReader;
    case FromPublisher(p) => assert S.TaskInv(s, s.tasks[p]);
  }

  lemma PublisherTook(s: S.State, frame: S.Frame)
    requires S.Exact(s) && Pushing(s, frame) && frame.from.FromPublisher?
    ensures Took(s, Pushed(s, frame), frame)
  {
    PushRoom(s, frame);
    var p := frame.from.id;
    var n := s.pending + |frame.text|;
    assert S.Next(s, S.AddBytes(p)) == S.Put(s.(pending := n), p, s.tasks[p].(pc := S.Added(n)));
  }

  lemma PushedTook(s: S.State, frame: S.Frame)
    requires S.Exact(s) && Pushing(s, frame)
    ensures Took(s, Pushed(s, frame), frame)
  {
    PushRoom(s, frame);
    if frame.from.FromPublisher? {
      PublisherTook(s, frame);
    }
  }

  /** A publisher's look, undisturbed: the flag, and the counter if the flag is down. It goes
      on without registering, or having registered without parking, exactly if there is room. */
  lemma LookFinds(s: S.State, p: nat)
    requires p < |s.tasks| && (s.tasks[p].pc == S.Probe1 || s.tasks[p].pc.Probe2?)
    ensures var s1 := S.Next(s, S.LoadGone(p));
            if S.Gone(s) then s1.tasks[p].pc == S.Probe3
            else S.Enabled(s1, S.LoadCount(p))
                 && (S.Next(s1, S.LoadCount(p)).tasks[p].pc == S.Probe3 <==> S.Room(s))
  {
  }

  class Queue {
    const soft: nat
    const hard: nat
    var pending: nat
    var gone: bool
    var sender: bool
    var receiver: bool
    var frames: seq<S.Frame>
    var notified: nat

    constructor (maxPending: nat)
      ensures soft == maxPending / 4 * 3 && hard == maxPending && notified == 0
      ensures Mirrors(S.Init(maxPending, 0))
    {
      soft, hard := maxPending / 4 * 3, maxPending;
      pending, gone, sender, receiver, frames, notified := 0, false, true, true, [], 0;
    }

    /** The fields are what the step system's state says. */
    ghost predicate Mirrors(s: S.State)
      reads this
    {
      && soft == s.soft && hard == s.hard && pending == s.pending && frames == s.queue
      && gone == S.Gone(s) && sender == S.HasSender(s) && receiver == s.receiving
    }

    /** A push, under the queue lock: accepted exactly when the counter stays within the hard
        mark and someone receives, and otherwise as if it had not been. */
    method Push(frame: S.Frame) returns (r: Enqueue)
      requires pending + |frame.text| < U64
      modifies this`pending, this`frames
      ensures r == SlowConsumer <==> old(pending) + |frame.text| > hard
      ensures r == Dropped <==> old(pending) + |frame.text| <= hard && !receiver
      ensures r == SoftLimit ==> soft < pending
      ensures r == Queued ==> pending <= soft
      ensures r == SoftLimit || r == Queued ==>
                pending == old(pending) + |frame.text| <= hard && frames == old(frames) + [frame]
      ensures r == SlowConsumer || r == Dropped ==> pending == old(pending) && frames == old(frames)
    {
      var before := S.WrapAdd(pending, |frame.text|);
      pending := before;
      if before > hard {
        pending := S.WrapSub(pending, |frame.text|);
        return SlowConsumer;
      }
      if !receiver {
        pending := S.WrapSub(pending, |frame.text|);
        return Dropped;
      }
      frames := frames + [frame];
      r := if before > soft then SoftLimit else Queued;
    }

    /** That is what the steps of a push come to, from the state in which the lock was taken to
        the one in which it is given back; no frame is dropped from an open connection. */
    method PushSteps(frame: S.Frame, ghost s: S.State) returns (r: Enqueue)
      requires S.Exact(s) && Mirrors(s) && Pushing(s, frame)
      modifies this`pending, this`frames
      ensures Mirrors(Pushed(s, frame)) && (r == Dropped ==> S.Closed(s))
      ensures r == SlowConsumer <==> old(pending) + |frame.text| > hard
    {
      PushRoom(s, frame);
      PushedTook(s, frame);
      r := Push(frame);
    }

    /** A drain nobody interrupts: the waiters are notified exactly when it takes the
        counter from above the soft mark to the mark or under it. */
    method Drained(bytes: nat, ghost s: S.State)
      requires S.Exact(s) && Mirrors(s) && s.writer == S.Drain(bytes)
      modifies this
      ensures S.Gone(s) ==> Mirrors(S.Next(s, S.DrainGate)) && notified == old(notified)
      ensures !S.Gone(s) ==> Mirrors(S.Next(S.Next(s, S.DrainGate), S.DrainSubtract)) && old(pending) - bytes == pending
      ensures !S.Gone(s) ==> notified == old(notified) + if old(pending) > soft && pending <= soft then 1 else 0
    {
      if gone {
        return;
      }
      var was := pending;
      pending := S.WrapSub(pending, bytes);
      var left := if was >= bytes then was - bytes else 0;
      if was > soft && left <= soft {
        notified := notified + 1;
      }
    }

    /** Whether a publisher that looks now, undisturbed, finds room. */
    method Room(ghost s: S.State) returns (r: bool)
      requires Mirrors(s)
      ensures r == S.Room(s) && (r <==> gone || pending <= soft)
    {
      r := gone;
      if !r {
        r := pending <= soft;
      }
    }

    /** The end of the close: no wait that looks after this finds no room. */
    method NoMoreWrites(ghost s: S.State)
      requires Mirrors(s) && s.closing == S.Severed
      modifies this
      ensures Mirrors(S.Next(S.Next(S.Next(s, S.Mark), S.Zero), S.NotifyAll))
      ensures gone && pending == 0 && notified == old(notified) + 1
    {
      gone := true;
      pending := 0;
      notified := notified + 1;
    }
  }
}
