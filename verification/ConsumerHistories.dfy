/** A consumer's main goroutine and its supervisor are where the history says. */
module ConsumerHistories {
  import opened Prelude
  import opened Protocol
  import opened Invariants
  import opened Histories
  import opened PairHistories
  import opened WorkerHistories
  import opened QueueHistories
  import Supervision

  ghost function NextCourse(cfg: Config, f: Course, a: Action, c: nat, started: bool, queueEmpty: bool): Course {
    var heard := f.heard + AsNat(a == HearEnd(c));
    Course(f.bound || a == Bind(c), f.interrupted || a == InterruptMain(c), f.returned || a == Return(c),
           if a == InterruptMain(c) || (a == HearEnd(c) && 0 < cfg.nProducers == heard) then started else f.started,
           f.sent + (if a.SendEnd? && f.bound then [a.p] else []), heard,
           a == Signal(c) || (f.slot && a != InterruptMain(c) && a != InterruptSupervisor(c)),
           f.seen || a == SeeDone(c), f.quit || a == InterruptSupervisor(c),
           f.polls + AsNat(a == Poll(c)), f.wakes + AsNat(a == Wake(c)),
           f.empty || (a == Poll(c) && queueEmpty), f.closed || a == CloseStop(c))
  }

  lemma EmptyPollNext(h: History, a: Action, c: nat)
    ensures FoundEmpty(h + [a], c) <==> FoundEmpty(h, c) || (a == Poll(c) && QueueEmpty(h))
  {
    var all := h + [a];
    assert all[..|h|] == h;
    if j: nat :| EmptyPollAt(all, c, j) && j < |h| {
      assert all[..j] == h[..j];
      assert EmptyPollAt(h, c, j);
    }
    if j: nat :| EmptyPollAt(h, c, j) {
      assert all[..j] == h[..j];
      assert EmptyPollAt(all, c, j);
    }
    if a == Poll(c) && QueueEmpty(h) {
      assert EmptyPollAt(all, c, |h|);
    }
  }

  lemma SentNext(cfg: Config, h: History, a: Action, c: nat)
    ensures Sent(h + [a], c) == Sent(h, c) + (if a.SendEnd? && Bind(c) in h then [a.p] else [])
    ensures Slot(h + [a], c) <==>
            a == Signal(c) || (a != InterruptMain(c) && a != InterruptSupervisor(c) && Slot(h, c))
    ensures StartedThen(cfg, h + [a], c) ==
            if a == InterruptMain(c) || (a == HearEnd(c) && AllHeard(cfg, h + [a], c)) then HaveStarted(cfg, h, c)
            else StartedThen(cfg, h, c)
  {
    assert (h + [a])[..|h|] == h;
  }

  lemma CourseNext(cfg: Config, h: History, a: Action, c: nat)
    ensures CourseOf(cfg, h + [a], c) ==
            NextCourse(cfg, CourseOf(cfg, h, c), a, c, HaveStarted(cfg, h, c), QueueEmpty(h))
  {
    MoreTimes(h, a, HearEnd(c));
    MoreTimes(h, a, Poll(c));
    MoreTimes(h, a, Wake(c));
    EmptyPollNext(h, a, c);
    SentNext(cfg, h, a, c);
  }

  lemma NapIs(k: nat)
    ensures Nap(0) == FIRST_SLEEP && Nap(k + 1) == NextSleep(Nap(k))
  {
    Supervision.SleepIs(k);
    Supervision.SleepIs(k + 1);
  }

  lemma FitsMain(cfg: Config, x: Consumer, f: Course, a: Action, started: bool, queueEmpty: bool)
    requires OnConsumer(a) && ConsumerFits(cfg, x, f) && ConsumerReady(x, a)
    requires a.Bind? || a.HearEnd? || a.InterruptMain? || a.Return? || a.Signal?
    ensures ConsumerFits(cfg, ConsumerStep(cfg, x, started, queueEmpty, a),
                         NextCourse(cfg, f, a, a.c, started, queueEmpty))
  {
    if a.HearEnd? {
      assert x.heard + x.inbox == x.heard + [x.inbox[0]] + x.inbox[1..];
    }
  }

  predicate ConsumerReady(x: Consumer, a: Action)
    requires OnConsumer(a)
  {
    if a.Bind? then x.main == NotStarted
    else if a.Signal? then true
    else if a.HearEnd? then x.main == Counting && x.inbox != []
    else if a.InterruptMain? then x.main == Counting && x.signalled
    else if a.Return? then x.main.Waiting?
    else if a.InterruptSupervisor? then x.main != NotStarted && x.supervisor == Selecting && x.signalled
    else if a.SeeDone? then x.supervisor == Selecting && x.doneCloses > 0
    else if a.Poll? then x.supervisor.Polling?
    else if a.Wake? then x.supervisor.Sleeping?
    else x.supervisor.Stopping?
  }

  lemma FitsSupervisor(cfg: Config, x: Consumer, f: Course, a: Action, started: bool, queueEmpty: bool)
    requires OnConsumer(a) && ConsumerFits(cfg, x, f) && ConsumerReady(x, a)
    requires a.InterruptSupervisor? || a.SeeDone? || a.Poll? || a.Wake? || a.CloseStop?
    ensures ConsumerFits(cfg, ConsumerStep(cfg, x, started, queueEmpty, a),
                         NextCourse(cfg, f, a, a.c, started, queueEmpty))
  {
    NapIs(f.polls);
  }

  lemma ConsumersAfterAt(cfg: Config, s: State, a: Action, c: nat)
    requires Enabled(cfg, s, a) && c < |s.consumers|
    ensures OnConsumer(a) && a.c == c ==> ConsumerReady(s.consumers[c], a)
    ensures OnConsumer(a) && a.c == c ==>
      ConsumersAfter(cfg, s, a)[c] ==
        ConsumerStep(cfg, s.consumers[c], AllStarted(s.workers, c), s.ready == multiset{}, a)
    ensures !(OnConsumer(a) && a.c == c) ==>
      var x, y := s.consumers[c], ConsumersAfter(cfg, s, a)[c];
      && y == x.(inbox := y.inbox, wg := y.wg)
      && y.inbox == x.inbox + if a.SendEnd? && x.main != NotStarted then [a.p] else []
  {
  }

  lemma FitsElse(cfg: Config, x: Consumer, y: Consumer, f: Course, a: Action, c: nat, started: bool, queueEmpty: bool)
    requires ConsumerFits(cfg, x, f) && !(OnConsumer(a) && a.c == c) && y == x.(inbox := y.inbox, wg := y.wg)
    requires y.inbox == x.inbox + if a.SendEnd? && x.main != NotStarted then [a.p] else []
    ensures ConsumerFits(cfg, y, NextCourse(cfg, f, a, c, started, queueEmpty))
  {
    assert x.heard + y.inbox == (x.heard + x.inbox) + if a.SendEnd? && x.main != NotStarted then [a.p] else [];
  }

  lemma FitsNext(cfg: Config, s: State, a: Action, c: nat, f: Course)
    requires Enabled(cfg, s, a) && c < |s.consumers| && ConsumerFits(cfg, s.consumers[c], f)
    ensures ConsumerFits(cfg, ConsumersAfter(cfg, s, a)[c],
                         NextCourse(cfg, f, a, c, AllStarted(s.workers, c), s.ready == multiset{}))
  {
    ConsumersAfterAt(cfg, s, a, c);
    var started, queueEmpty := AllStarted(s.workers, c), s.ready == multiset{};
    if OnConsumer(a) && a.c == c {
      if a.Bind? || a.HearEnd? || a.InterruptMain? || a.Return? || a.Signal? {
        FitsMain(cfg, s.consumers[c], f, a, started, queueEmpty);
      } else {
        FitsSupervisor(cfg, s.consumers[c], f, a, started, queueEmpty);
      }
    } else {
      FitsElse(cfg, s.consumers[c], ConsumersAfter(cfg, s, a)[c], f, a, c, started, queueEmpty);
    }
  }

  lemma {:induction false} ConsumerHistory(cfg: Config, acts: seq<Action>, c: nat)
    requires cfg.Valid() && Run(cfg, acts).Some? && c < cfg.consumers
    ensures c < |Run(cfg, acts).value.consumers| && ConsumerIs(cfg, acts, c, Run(cfg, acts).value.consumers[c])
  {
    if acts != [] {
      var h, a := acts[..|acts| - 1], acts[|acts| - 1];
      assert acts == h + [a];
      RunLast(cfg, Init(cfg), h, a);
      ConsumerHistory(cfg, h, c);
      CourseNext(cfg, h, a, c);
      StartedIs(cfg, h, c);
      EmptyIs(cfg, h);
      FitsNext(cfg, Run(cfg, h).value, a, c, CourseOf(cfg, h, c));
    }
  }
}
