/** Epoch reclamation as a state machine over atomic steps (src/blk.c, limbo, epochstart, epochend,
    epochwait and epochclean): epochs modulo 3, three limbo lists, any number of threads. */
module Epochs {
  /** A retired block and the epoch section it was retired in, -1 for none. at is a history
      variable: the true number of the epoch whose list it was pushed on. */
  datatype Entry = Entry(id: int, sec: int, at: int)

  /** A thread: its epoch word, its section while active, and what limbo last read as the epoch. */
  datatype Worker = Worker(active: bool, le: int, sess: nat, seen: int)

  /** Where epochclean is; Wait is epochwait, called from the first loop at i or, for good, after it. */
  datatype Clean = Off | First(i: nat, ge: int) | Wait(j: nat, wge: int, i: nat, ge: int) | Swap(ge: int)
                 | Bump(ge: int) | Drain

  /** n counts the sections begun; ended says how many had begun when a section ended. time and born
      are history variables: the number of epochs passed, now and at the start of each section. */
  datatype State = State(epoch: int, workers: seq<Worker>, limbo: seq<seq<Entry>>,
                         pc: seq<Clean>, taken: seq<seq<Entry>>,
                         n: nat, ended: map<nat, nat>, time: nat, born: map<nat, nat>)

  ghost predicate Shape(s: State) {
    && |s.limbo| == 3 && 0 <= s.epoch < 3 && |s.pc| == |s.taken|
    && (forall i :: 0 <= i < |s.workers| ==> -1 <= s.workers[i].seen < 3)
  }

  // ----- steps -----

  /** epochstart, taken as one step. */
  ghost predicate Start(s: State, t: State, i: nat) {
    && i < |s.workers| && !s.workers[i].active
    && t == s.(workers := s.workers[i := Worker(true, s.epoch, s.n, -1)], n := s.n + 1,
               born := s.born[s.n := s.time])
  }

  ghost predicate Finish(s: State, t: State, i: nat) {
    && i < |s.workers| && s.workers[i].active
    && t == s.(workers := s.workers[i := s.workers[i].(active := false)],
               ended := s.ended[s.workers[i].sess := s.n])
  }

  /** limbo reads the epoch, and later its compare-and-swap on that list succeeds. */
  ghost predicate Look(s: State, t: State, i: nat) {
    && i < |s.workers| && s.workers[i].active
    && t == s.(workers := s.workers[i := s.workers[i].(seen := s.epoch)])
  }

  ghost predicate Push(s: State, t: State, i: nat, x: Entry) {
    && Shape(s) && i < |s.workers| && s.workers[i].active && s.workers[i].seen >= 0
    && x.sec == s.workers[i].sess && x.at == (if s.workers[i].seen == s.epoch then s.time else s.time - 1)
    && t == s.(limbo := s.limbo[s.workers[i].seen := [x] + s.limbo[s.workers[i].seen]],
               workers := s.workers[i := s.workers[i].(seen := -1)])
  }

  /** A block retired outside every section may land on any list. */
  ghost predicate PushOutside(s: State, t: State, k: nat, x: Entry) {
    && |s.limbo| == 3 && k < 3 && x.sec < 0 && t == s.(limbo := s.limbo[k := [x] + s.limbo[k]])
  }

  predicate Behind(w: Worker, ge: int) { w.active && w.le != ge }

  /** The steps of epochclean by thread c: the first loop, which may give up; a full wait; the swap of
      the oldest list; the new epoch; and the frees. */
  ghost predicate Enter(s: State, t: State, c: nat) {
    c < |s.pc| && s.pc[c] == Off && t == s.(pc := s.pc[c := First(0, s.epoch)])
  }

  ghost predicate FirstLoop(s: State, t: State, c: nat) {
    && c < |s.pc| && s.pc[c].First?
    && var i, ge := s.pc[c].i, s.pc[c].ge;
      if i < |s.workers| then
        if Behind(s.workers[i], ge) then t == s.(pc := s.pc[c := Off])
            || t == s.(pc := s.pc[c := Wait(0, s.epoch, i, ge)])
        else t == s.(pc := s.pc[c := First(i + 1, ge)])
      else t == s.(pc := s.pc[c := Wait(0, s.epoch, i, ge)])
  }

  ghost predicate WaitLoop(s: State, t: State, c: nat) {
    && c < |s.pc| && s.pc[c].Wait?
    && var j, wge, i, ge := s.pc[c].j, s.pc[c].wge, s.pc[c].i, s.pc[c].ge;
      if j < |s.workers| then
        t == s.(pc := s.pc[c := if Behind(s.workers[j], wge) then Wait(0, s.epoch, i, ge) else Wait(j + 1, wge, i, ge)])
      else
        t == s.(pc := s.pc[c := if i < |s.workers| then First(i + 1, ge) else Swap(ge)])
  }

  ghost predicate SwapList(s: State, t: State, c: nat) {
    && c < |s.pc| == |s.taken| && s.pc[c].Swap? && |s.limbo| == 3
    && var k := (s.pc[c].ge + 1) % 3;
      t == s.(pc := s.pc[c := Bump(s.pc[c].ge)], taken := s.taken[c := s.limbo[k]], limbo := s.limbo[k := []])
  }

  ghost predicate NewEpoch(s: State, t: State, c: nat) {
    && c < |s.pc| && s.pc[c].Bump?
    && t == s.(pc := s.pc[c := Drain], epoch := (s.pc[c].ge + 1) % 3, time := s.time + 1)
  }

  /** One entry is reclaimed. */
  ghost predicate Free(s: State, t: State, c: nat, x: Entry) {
    && c < |s.pc| == |s.taken| && s.pc[c].Drain? && s.taken[c] != [] && x == s.taken[c][0]
    && t == s.(taken := s.taken[c := s.taken[c][1..]])
  }

  ghost predicate Leave(s: State, t: State, c: nat) {
    c < |s.pc| == |s.taken| && s.pc[c].Drain? && s.taken[c] == [] && t == s.(pc := s.pc[c := Off])
  }

  ghost predicate CleanStep(s: State, t: State, c: nat) {
    || Enter(s, t, c) || FirstLoop(s, t, c) || WaitLoop(s, t, c) || SwapList(s, t, c) || NewEpoch(s, t, c)
    || (exists x :: Free(s, t, c, x)) || Leave(s, t, c)
  }

  ghost predicate WorkStep(s: State, t: State, i: nat) {
    Start(s, t, i) || Finish(s, t, i) || Look(s, t, i) || (exists x :: Push(s, t, i, x))
  }

  ghost predicate Next(s: State, t: State) {
    || (exists i: nat :: WorkStep(s, t, i))
    || (exists c: nat :: CleanStep(s, t, c))
    || (exists k: nat, x :: PushOutside(s, t, k, x))
  }

  ghost predicate Init(s: State) {
    && Shape(s) && s.epoch == 0 && s.time == 0 && s.limbo == [[], [], []]
    && s.n == 0 && s.ended == map[] && s.born == map[]
    && (forall i :: 0 <= i < |s.workers| ==> !s.workers[i].active)
    && (forall c :: 0 <= c < |s.pc| ==> s.pc[c] == Off && s.taken[c] == [])
  }

  ghost predicate IsRun(run: seq<State>) {
    run != [] && Init(run[0]) && forall i :: 0 <= i < |run| - 1 ==> Next(run[i], run[i + 1])
  }

  /** The section x was retired in is over, and so is every section begun before it ended. */
  ghost predicate Safe(s: State, x: Entry) {
    x.sec >= 0 ==>
      && x.sec in s.ended
      && forall i :: 0 <= i < |s.workers| && s.workers[i].active ==> s.workers[i].sess >= s.ended[x.sec]
  }

  // ----- the invariant, for one cleaner -----

  /** An active thread is in the current epoch or the one before, and so is what limbo read. */
  ghost predicate WorkerOk(s: State, w: Worker) {
    w.active ==>
      && w.sess in s.born && w.sess < s.n && w.sess !in s.ended
      && s.born[w.sess] <= s.time <= s.born[w.sess] + 1 && w.le == s.born[w.sess] % 3
      && (w.seen >= 0 ==> w.seen == s.time % 3 || (w.seen == (s.time - 1) % 3 && s.born[w.sess] == s.time - 1))
  }

  ghost predicate Caught(s: State, w: Worker) {
    w.active ==> w.sess in s.born && s.born[w.sess] == s.time
  }

  ghost predicate EntryOk(s: State, x: Entry, k: int) {
    x.sec >= 0 ==>
      && x.at % 3 == k && s.time - 2 <= x.at <= s.time
      && x.sec < s.n && x.sec in s.born && s.born[x.sec] <= x.at
  }

  ghost predicate SessOk(s: State, i: nat) {
    && i in s.born && s.born[i] <= s.time
    && (i in s.ended ==>
          && s.ended[i] <= s.n
          && forall j: nat :: j < s.ended[i] ==> j in s.born && s.born[j] <= s.born[i] + 1)
    && (i !in s.ended ==> InSection(s, i))
  }

  ghost predicate InSection(s: State, sess: nat) {
    exists k :: 0 <= k < |s.workers| && s.workers[k].active && s.workers[k].sess == sess
  }

  ghost predicate Apart(s: State) {
    forall i, j :: 0 <= i < j < |s.workers| && s.workers[i].active && s.workers[j].active
        ==> s.workers[i].sess != s.workers[j].sess
  }

  /** What epochclean knows at each point. */
  ghost predicate CleanOk(s: State, p: Clean) {
    match p
    case Off => true
    case First(_, ge) => ge == s.epoch
    case Wait(j, wge, _, ge) =>
      ge == s.epoch && wge == s.epoch && j <= |s.workers| && forall i :: 0 <= i < j ==> Caught(s, s.workers[i])
    case Swap(ge) => ge == s.epoch && forall i :: 0 <= i < |s.workers| ==> Caught(s, s.workers[i])
    case Bump(ge) =>
      && ge == s.epoch && (forall i :: 0 <= i < |s.workers| ==> Caught(s, s.workers[i]))
      && |s.limbo| == 3 && forall x :: x in s.limbo[(ge + 1) % 3] ==> x.sec < 0
    case Drain => true
  }

  ghost predicate Inv(s: State) {
    && Shape(s) && |s.pc| == 1 && s.epoch == s.time % 3 && Apart(s)
    && (forall i :: 0 <= i < |s.workers| ==> WorkerOk(s, s.workers[i]))
    && (forall k, x :: 0 <= k < 3 && x in s.limbo[k] ==> EntryOk(s, x, k))
    && (forall i: nat {:trigger SessOk(s, i)} :: i < s.n ==> SessOk(s, i))
    && (forall i :: i in s.ended ==> i < s.n)
    && CleanOk(s, s.pc[0])
    && (forall x :: x in s.taken[0] ==> Safe(s, x))
  }

  lemma StartInv(s: State, t: State, i: nat)
    requires Inv(s) && Start(s, t, i)
    ensures Inv(t)
  {
    forall j: nat | j < t.n ensures SessOk(t, j) {
      if j < s.n {
        assert SessOk(s, j);
        if j !in s.ended {
          var k :| 0 <= k < |s.workers| && s.workers[k].active && s.workers[k].sess == j;
          assert t.workers[k] == s.workers[k];
        }
      } else {
        assert t.workers[i].sess == j;
        assert j !in s.ended;
      }
    }
    forall j | 0 <= j < |t.workers| ensures WorkerOk(t, t.workers[j]) {
      assert WorkerOk(s, s.workers[j]);
    }
    forall k, x | 0 <= k < 3 && x in t.limbo[k] ensures EntryOk(t, x, k) {
      assert EntryOk(s, x, k);
    }
    forall x | x in t.taken[0] ensures Safe(t, x) {
      assert Safe(s, x);
      if x.sec >= 0 { assert SessOk(s, x.sec); }
    }
    CleanSame(s, t);
  }

  /** What the cleaner knows survives threads starting in the current epoch and finishing. */
  lemma CleanSame(s: State, t: State)
    requires |s.pc| == |t.pc| == 1 && CleanOk(s, s.pc[0]) && t.pc[0] == s.pc[0] && t.epoch == s.epoch
              && t.limbo == s.limbo
    requires |t.workers| == |s.workers| && |s.limbo| == 3
    requires forall i :: 0 <= i < |s.workers| && Caught(s, s.workers[i]) ==> Caught(t, t.workers[i])
    requires 0 <= s.epoch < 3
    ensures CleanOk(t, t.pc[0])
  {
  }

  lemma FinishInv(s: State, t: State, i: nat)
    requires Inv(s) && Finish(s, t, i)
    ensures Inv(t)
  {
    var me := s.workers[i].sess;
    assert WorkerOk(s, s.workers[i]) && SessOk(s, me);
    forall j: nat | j < t.n ensures SessOk(t, j) {
      assert SessOk(s, j);
      if j != me && j !in s.ended {
        var k :| 0 <= k < |s.workers| && s.workers[k].active && s.workers[k].sess == j;
        assert t.workers[k] == s.workers[k];
      } else if j == me {
        forall l: nat | l < s.n ensures l in s.born && s.born[l] <= s.born[me] + 1 {
          assert SessOk(s, l);
        }
      }
    }
    forall j | 0 <= j < |t.workers| ensures WorkerOk(t, t.workers[j]) {
      assert WorkerOk(s, s.workers[j]);
    }
    forall k, x | 0 <= k < 3 && x in t.limbo[k] ensures EntryOk(t, x, k) {
      assert EntryOk(s, x, k);
    }
    forall x | x in t.taken[0] ensures Safe(t, x) {
      assert Safe(s, x);
    }
    CleanSame(s, t);
  }

  lemma LookInv(s: State, t: State, i: nat)
    requires Inv(s) && Look(s, t, i)
    ensures Inv(t)
  {
    forall j: nat | j < t.n ensures SessOk(t, j) {
      assert SessOk(s, j);
      SectionSame(s, t, i, j);
    }
    forall j | 0 <= j < |t.workers| ensures WorkerOk(t, t.workers[j]) {
      assert WorkerOk(s, s.workers[j]);
    }
    forall k, x | 0 <= k < 3 && x in t.limbo[k] ensures EntryOk(t, x, k) {
      assert EntryOk(s, x, k);
    }
    forall x | x in t.taken[0] ensures Safe(t, x) {
      assert Safe(s, x);
    }
    CleanSame(s, t);
  }

  lemma SectionSame(s: State, t: State, i: nat, sess: nat)
    requires i < |s.workers|
    requires exists w ::
               t.workers == s.workers[i := w] && w.active == s.workers[i].active && w.sess == s.workers[i].sess
    ensures InSection(s, sess) ==> InSection(t, sess)
  {
    if InSection(s, sess) {
      var k :| 0 <= k < |s.workers| && s.workers[k].active && s.workers[k].sess == sess;
      assert t.workers[k].active && t.workers[k].sess == sess;
    }
  }

  lemma PushInv(s: State, t: State, i: nat, x: Entry)
    requires Inv(s) && Push(s, t, i, x)
    ensures Inv(t)
  {
    var w := s.workers[i];
    assert WorkerOk(s, w);
    forall j: nat | j < t.n ensures SessOk(t, j) {
      assert SessOk(s, j);
      SectionSame(s, t, i, j);
    }
    forall j | 0 <= j < |t.workers| ensures WorkerOk(t, t.workers[j]) {
      assert WorkerOk(s, s.workers[j]);
    }
    assert EntryOk(t, x, w.seen);
    forall k, y | 0 <= k < 3 && y in t.limbo[k] ensures EntryOk(t, y, k) {
      if !(k == w.seen && y == x) { assert y in s.limbo[k] && EntryOk(s, y, k); }
    }
    forall y | y in t.taken[0] ensures Safe(t, y) {
      assert Safe(s, y);
    }
    CaughtPush(s, t, i, x);
  }

  lemma CaughtPush(s: State, t: State, i: nat, x: Entry)
    requires Inv(s) && Push(s, t, i, x)
    ensures CleanOk(t, t.pc[0])
  {
    var w := s.workers[i];
    assert WorkerOk(s, w);
    if s.pc[0].Bump? {
      assert Caught(s, w);
    }
  }

  lemma OutsideInv(s: State, t: State, k: nat, x: Entry)
    requires Inv(s) && PushOutside(s, t, k, x)
    ensures Inv(t)
  {
    forall j: nat | j < t.n ensures SessOk(t, j) {
      assert SessOk(s, j);
    }
    forall l, y | 0 <= l < 3 && y in t.limbo[l] ensures EntryOk(t, y, l) {
      if y != x { assert y in s.limbo[l] && EntryOk(s, y, l); }
    }
    forall y | y in t.taken[0] ensures Safe(t, y) {
      assert Safe(s, y);
    }
    forall j | 0 <= j < |t.workers| ensures WorkerOk(t, t.workers[j]) {
      assert WorkerOk(s, s.workers[j]);
    }
  }

  /** Steps that change only where the cleaner is. */
  lemma PcInv(s: State, t: State)
    requires Inv(s) && |t.pc| == 1 && t == s.(pc := t.pc) && CleanOk(t, t.pc[0])
    ensures Inv(t)
  {
    forall j: nat | j < t.n ensures SessOk(t, j) {
      assert SessOk(s, j);
    }
    forall k, x | 0 <= k < 3 && x in t.limbo[k] ensures EntryOk(t, x, k) {
      assert EntryOk(s, x, k);
    }
    forall j | 0 <= j < |t.workers| ensures WorkerOk(t, t.workers[j]) {
      assert WorkerOk(s, s.workers[j]);
    }
    forall x | x in t.taken[0] ensures Safe(t, x) {
      assert Safe(s, x);
    }
  }

  /** A thread not behind the current epoch began in it. */
  lemma NotBehind(s: State, w: Worker)
    requires WorkerOk(s, w) && !Behind(w, s.time % 3)
    ensures Caught(s, w)
  {
  }

  lemma LoopInv(s: State, t: State)
    requires Inv(s) && (Enter(s, t, 0) || FirstLoop(s, t, 0) || WaitLoop(s, t, 0) || Leave(s, t, 0))
    ensures Inv(t)
  {
    hide WorkerOk, EntryOk, SessOk, Safe, Apart;
    assert t == s.(pc := t.pc) && |t.pc| == 1;
    forall i | 0 <= i < |s.workers| && !Behind(s.workers[i], s.epoch) ensures Caught(s, s.workers[i]) {
      assert WorkerOk(s, s.workers[i]);
      NotBehind(s, s.workers[i]);
    }
    assert forall i :: 0 <= i < |s.workers| ==> Caught(s, s.workers[i]) == Caught(t, t.workers[i]);
    PcInv(s, t);
  }

  /** What is on the oldest list once every active thread has begun in the current epoch. */
  lemma OldestSafe(s: State, x: Entry)
    requires Inv(s) && x in s.limbo[(s.epoch + 1) % 3]
    requires forall i :: 0 <= i < |s.workers| ==> Caught(s, s.workers[i])
    ensures Safe(s, x)
  {
    var k := (s.epoch + 1) % 3;
    assert EntryOk(s, x, k);
    if x.sec >= 0 {
      assert x.at == s.time - 2;
      assert SessOk(s, x.sec);
      forall i | 0 <= i < |s.workers| && s.workers[i].active ensures s.workers[i].sess != x.sec {
        assert Caught(s, s.workers[i]);
      }
      forall i | 0 <= i < |s.workers| && s.workers[i].active ensures s.workers[i].sess >= s.ended[x.sec] {
        assert Caught(s, s.workers[i]);
      }
    }
  }

  lemma SwapInv(s: State, t: State)
    requires Inv(s) && SwapList(s, t, 0)
    ensures Inv(t)
  {
    forall x | x in t.taken[0] ensures Safe(t, x) {
      OldestSafe(s, x);
    }
    forall j: nat | j < t.n ensures SessOk(t, j) {
      assert SessOk(s, j);
    }
    forall k, x | 0 <= k < 3 && x in t.limbo[k] ensures EntryOk(t, x, k) {
      assert x in s.limbo[k] && EntryOk(s, x, k);
    }
    forall j | 0 <= j < |t.workers| ensures WorkerOk(t, t.workers[j]) {
      assert WorkerOk(s, s.workers[j]);
    }
  }

  lemma BumpInv(s: State, t: State)
    requires Inv(s) && NewEpoch(s, t, 0)
    ensures Inv(t)
  {
    forall j: nat | j < t.n ensures SessOk(t, j) {
      assert SessOk(s, j);
    }
    forall k, x | 0 <= k < 3 && x in t.limbo[k] ensures EntryOk(t, x, k) {
      assert EntryOk(s, x, k);
    }
    forall j | 0 <= j < |t.workers| ensures WorkerOk(t, t.workers[j]) {
      assert WorkerOk(s, s.workers[j]) && Caught(s, s.workers[j]);
    }
    forall x | x in t.taken[0] ensures Safe(t, x) {
      assert Safe(s, x);
    }
  }

  lemma FreeInv(s: State, t: State, x: Entry)
    requires Inv(s) && Free(s, t, 0, x)
    ensures Inv(t)
  {
    forall j: nat | j < t.n ensures SessOk(t, j) {
      assert SessOk(s, j);
    }
    forall k, y | 0 <= k < 3 && y in t.limbo[k] ensures EntryOk(t, y, k) {
      assert EntryOk(s, y, k);
    }
    forall j | 0 <= j < |t.workers| ensures WorkerOk(t, t.workers[j]) {
      assert WorkerOk(s, s.workers[j]);
    }
    forall y | y in t.taken[0] ensures Safe(t, y) {
      assert y in s.taken[0] && Safe(s, y);
    }
  }

  lemma NextInv(s: State, t: State)
    requires Inv(s) && Next(s, t)
    ensures Inv(t)
  {
    hide Inv, Start, Finish, Look, Push, PushOutside, Enter, FirstLoop, WaitLoop, SwapList, NewEpoch, Free, Leave;
    if i: nat :| WorkStep(s, t, i) {
      if Start(s, t, i) { StartInv(s, t, i); }
      else if Finish(s, t, i) { FinishInv(s, t, i); }
      else if Look(s, t, i) { LookInv(s, t, i); }
      else { var x :| Push(s, t, i, x); PushInv(s, t, i, x); }
    } else if c: nat :| CleanStep(s, t, c) {
      OneCleaner(s, t, c);
      if SwapList(s, t, 0) { SwapInv(s, t); }
      else if NewEpoch(s, t, 0) { BumpInv(s, t); }
      else if x :| Free(s, t, 0, x) { FreeInv(s, t, x); }
      else { LoopInv(s, t); }
    } else {
      var k: nat, x :| PushOutside(s, t, k, x);
      OutsideInv(s, t, k, x);
    }
  }

  lemma OneCleaner(s: State, t: State, c: nat)
    requires Inv(s) && CleanStep(s, t, c)
    ensures c == 0
  {
  }

  lemma InitInv(s: State)
    requires Init(s) && |s.pc| == 1
    ensures Inv(s)
  {
  }

  lemma {:induction false} RunInv(run: seq<State>, i: nat)
    requires IsRun(run) && |run[0].pc| == 1 && i < |run|
    ensures Inv(run[i])
  {
    hide Inv, Next, Init;
    if i == 0 {
      InitInv(run[0]);
    } else {
      RunInv(run, i - 1);
      assert Next(run[i - 1], run[i - 1 + 1]);
      NextInv(run[i - 1], run[i]);
    }
  }

  /** While one thread at a time runs epochclean, nothing retired inside a section is reclaimed while
      a section begun before that one ended is still open, whatever the interleaving. */
  lemma ReclaimSafe(run: seq<State>, i: nat, c: nat, x: Entry)
    requires IsRun(run) && |run[0].pc| == 1 && i + 1 < |run| && Free(run[i], run[i + 1], c, x)
    ensures Safe(run[i], x)
  {
    hide IsRun, Next, Init, Safe, WorkerOk, EntryOk, SessOk, CleanOk;
    RunInv(run, i);
    assert c == 0;
    assert x in run[i].taken[0];
  }

  // ----- nothing is lost, and nothing is reclaimed twice -----

  /** What a step does to the entries: one is retired, a cleaner takes a list, or reclaims one. */
  datatype Event = Retire(x: Entry) | Take(c: nat, xs: seq<Entry>) | Reclaim(c: nat, x: Entry) | Move

  ghost predicate Does(s: State, t: State, e: Event) {
    match e
    case Retire(x) => (exists i: nat :: Push(s, t, i, x)) || exists k: nat :: PushOutside(s, t, k, x)
    case Take(c, xs) => SwapList(s, t, c) && xs == s.limbo[(s.pc[c].ge + 1) % 3]
    case Reclaim(c, x) => Free(s, t, c, x)
    case Move =>
      || (exists i: nat :: Start(s, t, i) || Finish(s, t, i) || Look(s, t, i))
      || (exists c: nat ::
            Enter(s, t, c) || FirstLoop(s, t, c) || WaitLoop(s, t, c) || NewEpoch(s, t, c) || Leave(s, t, c))
  }

  /** A run with what each of its steps does. */
  ghost predicate Tells(run: seq<State>, evs: seq<Event>) {
    IsRun(run) && |evs| == |run| - 1 && forall i :: 0 <= i < |evs| ==> Does(run[i], run[i + 1], evs[i])
  }

  /** Every step does one of these. */
  lemma SomeEvent(s: State, t: State) returns (e: Event)
    requires Next(s, t)
    ensures Does(s, t, e)
  {
    hide Start, Finish, Look, Push, PushOutside, Enter, FirstLoop, WaitLoop, NewEpoch, Free, Leave;
    if i: nat :| WorkStep(s, t, i) {
      if x :| Push(s, t, i, x) { return Retire(x); }
      return Move;
    } else if c: nat :| CleanStep(s, t, c) {
      if SwapList(s, t, c) { return Take(c, s.limbo[(s.pc[c].ge + 1) % 3]); }
      if x :| Free(s, t, c, x) { return Reclaim(c, x); }
      return Move;
    } else {
      var k: nat, x :| PushOutside(s, t, k, x);
      return Retire(x);
    }
  }

  /** So every run has a history. */
  lemma {:induction false} SomeHistory(run: seq<State>) returns (evs: seq<Event>)
    requires IsRun(run)
    ensures Tells(run, evs)
  {
    hide Does, Init, Next;
    var n := |run| - 1;
    if n == 0 {
      evs := [];
    } else {
      assert Next(run[n - 1], run[n - 1 + 1]);
      evs := SomeHistory(run[..n]);
      var e := SomeEvent(run[n - 1], run[n]);
      evs := evs + [e];
    }
  }

  /** How often x was retired, and how often it was reclaimed. */
  ghost function Retired(evs: seq<Event>, x: Entry): nat {
    if evs == [] then 0
    else Retired(evs[..|evs| - 1], x) + if evs[|evs| - 1] == Retire(x) then 1 else 0
  }

  ghost function Reclaimed(evs: seq<Event>, x: Entry): nat {
    if evs == [] then 0
    else
      var e := evs[|evs| - 1];
      Reclaimed(evs[..|evs| - 1], x) + if e.Reclaim? && e.x == x then 1 else 0
  }

  /** What a cleaner took, and what it reclaimed, in order. */
  ghost function TakenBy(evs: seq<Event>, c: nat): seq<Entry> {
    if evs == [] then []
    else
      var e := evs[|evs| - 1];
      TakenBy(evs[..|evs| - 1], c) + if e.Take? && e.c == c then e.xs else []
  }

  ghost function ReclaimedBy(evs: seq<Event>, c: nat): seq<Entry> {
    if evs == [] then []
    else
      var e := evs[|evs| - 1];
      ReclaimedBy(evs[..|evs| - 1], c) + if e.Reclaim? && e.c == c then [e.x] else []
  }

  /** How often x is on some lists. */
  ghost function Held(ls: seq<seq<Entry>>, x: Entry): nat {
    if ls == [] then 0 else Held(ls[..|ls| - 1], x) + multiset(ls[|ls| - 1])[x]
  }

  lemma {:induction false} HeldSet(ls: seq<seq<Entry>>, i: nat, l: seq<Entry>, x: Entry)
    requires i < |ls|
    ensures Held(ls[i := l], x) == Held(ls, x) - multiset(ls[i])[x] + multiset(l)[x]
  {
    var n := |ls| - 1;
    if i < n {
      HeldSet(ls[..n], i, l, x);
      assert ls[i := l][..n] == ls[..n][i := l] && ls[i := l][n] == ls[n] && ls[..n][i] == ls[i];
    } else {
      assert ls[i := l][..n] == ls[..n];
    }
  }

  lemma HeldPush(ls: seq<seq<Entry>>, i: nat, y: Entry, x: Entry)
    requires i < |ls|
    ensures Held(ls[i := [y] + ls[i]], x) == Held(ls, x) + if y == x then 1 else 0
  {
    hide Held;
    HeldSet(ls, i, [y] + ls[i], x);
  }

  lemma HeldPop(ls: seq<seq<Entry>>, i: nat, x: Entry)
    requires i < |ls| && ls[i] != []
    ensures Held(ls[i := ls[i][1..]], x) == Held(ls, x) - if ls[i][0] == x then 1 else 0
  {
    hide Held;
    HeldSet(ls, i, ls[i][1..], x);
    assert ls[i] == [ls[i][0]] + ls[i][1..];
  }

  lemma {:induction false} HeldNone(ls: seq<seq<Entry>>, x: Entry)
    requires forall i :: 0 <= i < |ls| ==> ls[i] == []
    ensures Held(ls, x) == 0
  {
    if ls != [] { HeldNone(ls[..|ls| - 1], x); }
  }

  /** A cleaner has something only between taking a list and leaving. */
  ghost predicate TakenOk(s: State) {
    && Shape(s)
    && forall c :: 0 <= c < |s.pc| ==> s.pc[c].Bump? || s.pc[c].Drain? || s.taken[c] == []
  }

  lemma StepTaken(s: State, t: State, e: Event)
    requires TakenOk(s) && Does(s, t, e)
    ensures TakenOk(t)
  {
    if e.Move? {
      MoveTaken(s, t);
    } else if e.Retire? {
      hide Enter, FirstLoop, WaitLoop, SwapList, NewEpoch, Free, Leave, Start, Finish, Look;
    } else {
      hide Enter, FirstLoop, WaitLoop, NewEpoch, Leave, Start, Finish, Look, Push, PushOutside;
    }
  }

  lemma MoveTaken(s: State, t: State)
    requires TakenOk(s) && Does(s, t, Move)
    ensures TakenOk(t) && t.limbo == s.limbo && t.taken == s.taken
  {
    if i: nat :| Start(s, t, i) || Finish(s, t, i) || Look(s, t, i) {
      hide Enter, FirstLoop, WaitLoop, SwapList, NewEpoch, Free, Leave;
    } else {
      hide Start, Finish, Look, Behind;
      var c: nat :| Enter(s, t, c) || FirstLoop(s, t, c) || WaitLoop(s, t, c) || NewEpoch(s, t, c) || Leave(s, t, c);
      CleanTaken(s, t, c);
    }
  }

  lemma CleanTaken(s: State, t: State, c: nat)
    requires TakenOk(s)
    requires Enter(s, t, c) || FirstLoop(s, t, c) || WaitLoop(s, t, c) || NewEpoch(s, t, c) || Leave(s, t, c)
    ensures TakenOk(t) && t.limbo == s.limbo && t.taken == s.taken
  {
    hide Behind;
    if Enter(s, t, c) { hide FirstLoop, WaitLoop, NewEpoch, Leave; }
    else if FirstLoop(s, t, c) { hide Enter, WaitLoop, NewEpoch, Leave; }
    else if WaitLoop(s, t, c) { hide Enter, FirstLoop, NewEpoch, Leave; }
    else if NewEpoch(s, t, c) { hide Enter, FirstLoop, WaitLoop, Leave; }
    else { hide Enter, FirstLoop, WaitLoop, NewEpoch; }
  }

  /** One step. */
  lemma StepKeeps(s: State, t: State, e: Event, x: Entry)
    requires TakenOk(s) && Does(s, t, e)
    ensures Held(t.limbo, x) + Held(t.taken, x) + (if e.Reclaim? && e.x == x then 1 else 0)
            == Held(s.limbo, x) + Held(s.taken, x) + if e == Retire(x) then 1 else 0
  {
    hide Held, Start, Finish, Look, Enter, FirstLoop, WaitLoop, NewEpoch, Leave;
    match e {
      case Retire(y) =>
        hide SwapList, Free;
        if k: nat :| PushOutside(s, t, k, y) {
          HeldPush(s.limbo, k, y, x);
        } else {
          var i: nat :| Push(s, t, i, y);
          HeldPush(s.limbo, s.workers[i].seen, y, x);
        }
      case Take(c, xs) =>
        hide Push, PushOutside, Free;
        HeldSet(s.limbo, (s.pc[c].ge + 1) % 3, [], x);
        HeldSet(s.taken, c, xs, x);
      case Reclaim(c, y) =>
        hide Push, PushOutside, SwapList;
        HeldPop(s.taken, c, x);
      case Move =>
        MoveTaken(s, t);
    }
  }

  lemma StepTook(s: State, t: State, e: Event, c: nat)
    requires TakenOk(s) && Does(s, t, e) && c < |s.taken|
    ensures |t.taken| == |s.taken|
    ensures s.taken[c] + (if e.Take? && e.c == c then e.xs else [])
            == (if e.Reclaim? && e.c == c then [e.x] else []) + t.taken[c]
  {
    hide Start, Finish, Look, Enter, FirstLoop, WaitLoop, NewEpoch, Leave;
    if e.Move? { MoveTaken(s, t); }
  }

  /** In every run, with any number of cleaners: an entry is on the limbo lists, with the cleaners or
      reclaimed exactly as often as it was retired. */
  lemma {:induction false} Conserved(run: seq<State>, evs: seq<Event>, x: Entry)
    requires Tells(run, evs)
    ensures TakenOk(run[|evs|])
    ensures Retired(evs, x) == Held(run[|evs|].limbo, x) + Held(run[|evs|].taken, x) + Reclaimed(evs, x)
  {
    hide Does, Held, Init, Next, TakenOk;
    if evs == [] {
      InitHeld(run[0], x);
    } else {
      var n := |evs| - 1;
      Shorter(run, evs);
      Conserved(run[..n + 1], evs[..n], x);
      var s, t := run[n], run[n + 1];
      assert run[..n + 1][n] == s && Does(s, t, evs[n]);
      StepKeeps(s, t, evs[n], x);
      StepTaken(s, t, evs[n]);
    }
  }

  lemma Shorter(run: seq<State>, evs: seq<Event>)
    requires Tells(run, evs) && evs != []
    ensures Tells(run[..|evs|], evs[..|evs| - 1])
  {
    hide Does, Init, Next;
  }

  lemma InitHeld(s: State, x: Entry)
    requires Init(s)
    ensures TakenOk(s) && Held(s.limbo, x) == 0 && Held(s.taken, x) == 0
  {
    HeldNone(s.limbo, x);
    HeldNone(s.taken, x);
  }

  /** A cleaner reclaims what it took, in order, and all of it before it leaves. */
  lemma {:induction false} AllTaken(run: seq<State>, evs: seq<Event>, c: nat)
    requires Tells(run, evs) && c < |run[0].taken|
    ensures |run[|evs|].pc| == |run[|evs|].taken| == |run[0].taken|
    ensures TakenBy(evs, c) == ReclaimedBy(evs, c) + run[|evs|].taken[c]
    ensures run[|evs|].pc[c] == Off ==> TakenBy(evs, c) == ReclaimedBy(evs, c)
  {
    hide Does, Next, Init, TakenOk, Reclaimed, Retired, TakenBy, ReclaimedBy;
    TakenAll(run, evs);
    if evs == [] {
      FirstTaken(run[0], c);
      NoneYet(c);
    } else {
      var n := |evs| - 1;
      Shorter(run, evs);
      AllTaken(run[..n + 1], evs[..n], c);
      var s, t := run[n], run[n + 1];
      assert run[..n + 1][n] == s && Does(s, t, evs[n]);
      TakenAll(run[..n + 1], evs[..n]);
      StepTook(s, t, evs[n], c);
      TookMore(evs, n, c, s.taken[c], t.taken[c]);
    }
  }

  lemma TakenAll(run: seq<State>, evs: seq<Event>)
    requires Tells(run, evs)
    ensures TakenOk(run[|evs|]) && |run[|evs|].pc| == |run[|evs|].taken|
    ensures forall c :: 0 <= c < |run[|evs|].pc| && run[|evs|].pc[c] == Off ==> run[|evs|].taken[c] == []
  {
    Conserved(run, evs, Entry(0, 0, 0));
  }

  lemma FirstTaken(s: State, c: nat)
    requires Init(s) && c < |s.taken|
    ensures s.taken[c] == []
  {
  }

  lemma NoneYet(c: nat)
    ensures TakenBy([], c) == ReclaimedBy([], c) == []
  {
  }

  lemma TookMore(evs: seq<Event>, n: nat, c: nat, was: seq<Entry>, left: seq<Entry>)
    requires |evs| == n + 1 && TakenBy(evs[..n], c) == ReclaimedBy(evs[..n], c) + was
    requires was + (if evs[n].Take? && evs[n].c == c then evs[n].xs else [])
             == (if evs[n].Reclaim? && evs[n].c == c then [evs[n].x] else []) + left
    ensures TakenBy(evs, c) == ReclaimedBy(evs, c) + left
  {
    var a, b := if evs[n].Take? && evs[n].c == c then evs[n].xs else [],
                if evs[n].Reclaim? && evs[n].c == c then [evs[n].x] else [];
    var r := ReclaimedBy(evs[..n], c);
    assert r + was + a == r + (was + a) == r + (b + left) == r + b + left;
    assert TakenBy(evs, c) == TakenBy(evs[..n], c) + a;
    assert ReclaimedBy(evs, c) == r + b;
  }

  /** Nothing is reclaimed more often than it was retired. */
  lemma NeverTwice(run: seq<State>, evs: seq<Event>, x: Entry)
    requires Tells(run, evs)
    ensures Reclaimed(evs, x) <= Retired(evs, x)
  {
    Conserved(run, evs, x);
  }

  // ----- while no section is open, a cleaner gets through -----

  ghost predicate AllIdle(s: State) {
    forall i :: 0 <= i < |s.workers| ==> !s.workers[i].active
  }

  ghost predicate LastIs(run: seq<State>, s: State) {
    run != [] && IsRun(run) && run[|run| - 1] == s
  }

  /** The first loop, from thread i on. */
  lemma {:induction false} PastFirst(run: seq<State>, s: State, c: nat, i: nat) returns (r: seq<State>)
    requires LastIs(run, s) && AllIdle(s) && c < |s.pc| && i <= |s.workers| && s.pc[c] == First(i, s.epoch)
    ensures run <= r && LastIs(r, s.(pc := s.pc[c := Wait(0, s.epoch, |s.workers|, s.epoch)]))
    decreases |s.workers| - i
  {
    hide IsRun, Start, Finish, Look, Push, Enter, WaitLoop, SwapList, NewEpoch, Free, Leave;
    if i == |s.workers| {
      r := CleanerStep(run, s.(pc := s.pc[c := Wait(0, s.epoch, i, s.epoch)]), c);
    } else {
      var t := s.(pc := s.pc[c := First(i + 1, s.epoch)]);
      r := CleanerStep(run, t, c);
      r := PastFirst(r, t, c, i + 1);
      assert t.pc[c := Wait(0, s.epoch, |s.workers|, s.epoch)] == s.pc[c := Wait(0, s.epoch, |s.workers|, s.epoch)];
    }
  }

  /** epochwait, from thread j on. */
  lemma {:induction false} PastWait(run: seq<State>, s: State, c: nat, j: nat) returns (r: seq<State>)
    requires LastIs(run, s) && AllIdle(s) && c < |s.pc| && j <= |s.workers|
    requires s.pc[c] == Wait(j, s.epoch, |s.workers|, s.epoch)
    ensures run <= r && LastIs(r, s.(pc := s.pc[c := Swap(s.epoch)]))
    decreases |s.workers| - j
  {
    hide IsRun, Start, Finish, Look, Push, Enter, FirstLoop, SwapList, NewEpoch, Free, Leave;
    if j == |s.workers| {
      r := CleanerStep(run, s.(pc := s.pc[c := Swap(s.epoch)]), c);
    } else {
      var t := s.(pc := s.pc[c := Wait(j + 1, s.epoch, |s.workers|, s.epoch)]);
      r := CleanerStep(run, t, c);
      r := PastWait(r, t, c, j + 1);
      assert t.pc[c := Swap(s.epoch)] == s.pc[c := Swap(s.epoch)];
    }
  }

  /** All that was taken is reclaimed. */
  lemma {:induction false} PastDrain(run: seq<State>, s: State, c: nat) returns (r: seq<State>)
    requires LastIs(run, s) && c < |s.pc| == |s.taken| && s.pc[c] == Drain
    ensures run <= r && LastIs(r, s.(pc := s.pc[c := Off], taken := s.taken[c := []]))
    decreases |s.taken[c]|
  {
    hide IsRun, Start, Finish, Look, Push, Enter, FirstLoop, WaitLoop, SwapList, NewEpoch;
    if s.taken[c] == [] {
      r := CleanerStep(run, s.(pc := s.pc[c := Off]), c);
      assert s.taken[c := []] == s.taken;
    } else {
      var t := s.(taken := s.taken[c := s.taken[c][1..]]);
      assert Free(s, t, c, s.taken[c][0]);
      r := CleanerStep(run, t, c);
      r := PastDrain(r, t, c);
      assert t.taken[c := []] == s.taken[c := []];
    }
  }

  /** One pass of epochclean: the oldest list is empty afterwards, and the epoch is the next one. */
  lemma CleanPass(run: seq<State>, s: State, c: nat) returns (r: seq<State>, t: State)
    requires LastIs(run, s) && TakenOk(s) && AllIdle(s) && c < |s.pc| && s.pc[c] == Off
    ensures run <= r && LastIs(r, t) && TakenOk(t) && AllIdle(t)
    ensures t == s.(epoch := (s.epoch + 1) % 3, time := s.time + 1, limbo := s.limbo[(s.epoch + 1) % 3 := []])
  {
    hide IsRun, Start, Finish, Look, Push, FirstLoop, WaitLoop, Free, Leave;
    var g, k := s.epoch, (s.epoch + 1) % 3;
    var s1 := s.(pc := s.pc[c := First(0, g)]);
    assert Enter(s, s1, c);
    r := CleanerStep(run, s1, c);
    r := PastFirst(r, s1, c, 0);
    var s2 := s1.(pc := s1.pc[c := Wait(0, g, |s.workers|, g)]);
    r := PastWait(r, s2, c, 0);
    var s3 := s2.(pc := s2.pc[c := Swap(g)]);
    var s4 := s3.(pc := s3.pc[c := Bump(g)], taken := s.taken[c := s.limbo[k]], limbo := s.limbo[k := []]);
    assert SwapList(s3, s4, c);
    r := CleanerStep(r, s4, c);
    var s5 := s4.(pc := s4.pc[c := Drain], epoch := k, time := s.time + 1);
    assert NewEpoch(s4, s5, c);
    r := CleanerStep(r, s5, c);
    r := PastDrain(r, s5, c);
    t := s5.(pc := s5.pc[c := Off], taken := s5.taken[c := []]);
    assert t.pc == s.pc;
    assert t.taken == s.taken;
  }

  /** After three passes nothing waits to be reclaimed. */
  lemma ThreePasses(run: seq<State>, s: State, c: nat) returns (r: seq<State>, t: State)
    requires LastIs(run, s) && TakenOk(s) && AllIdle(s) && c < |s.pc| && s.pc[c] == Off
    ensures run <= r && LastIs(r, t) && t.limbo == [[], [], []] && t.taken == s.taken && t.pc == s.pc
  {
    hide LastIs, TakenOk, AllIdle;
    assert |s.limbo| == 3 && 0 <= s.epoch < 3 by { ShapeOf(s); }
    r, t := CleanPass(run, s, c);
    var r1, t1 := r, t;
    r, t := CleanPass(r1, t1, c);
    var r2, t2 := r, t;
    r, t := CleanPass(r2, t2, c);
    assert t.limbo[0] == [] && t.limbo[1] == [] && t.limbo[2] == [];
  }

  lemma ShapeOf(s: State)
    requires TakenOk(s)
    ensures Shape(s)
  {
  }

  // ----- two cleaners -----

  lemma Extend(run: seq<State>, t: State)
    requires run != [] && IsRun(run) && Next(run[|run| - 1], t)
    ensures IsRun(run + [t])
  {
    hide Next, Init;
    var r := run + [t];
    forall i | 0 <= i < |r| - 1 ensures Next(r[i], r[i + 1]) {
      if i < |run| - 1 { assert r[i] == run[i] && r[i + 1] == run[i + 1]; }
    }
  }

  lemma CleanerStep(run: seq<State>, t: State, c: nat) returns (r: seq<State>)
    requires run != [] && IsRun(run) && CleanStep(run[|run| - 1], t, c)
    ensures IsRun(r) && r == run + [t] && r[|r| - 1] == t && r[..|r| - 1] == run
  {
    hide IsRun, CleanStep;
    Extend(run, t);
    r := run + [t];
  }

  lemma WorkerStep(run: seq<State>, t: State, i: nat) returns (r: seq<State>)
    requires run != [] && IsRun(run) && WorkStep(run[|run| - 1], t, i)
    ensures IsRun(r) && r == run + [t] && r[|r| - 1] == t && r[..|r| - 1] == run
  {
    hide IsRun, WorkStep;
    Extend(run, t);
    r := run + [t];
  }

  /** With its one thread idle, a cleaner gets to the point of swapping. */
  lemma ToSwap(run: seq<State>, c: nat) returns (r: seq<State>)
    requires run != [] && IsRun(run)
    requires var s := run[|run| - 1]; |s.workers| == 1 && !s.workers[0].active && c < |s.pc| && s.pc[c] == Off
    ensures IsRun(r) && |r| == |run| + 5 && r[0] == run[0]
    ensures var s := run[|run| - 1]; r[|r| - 1] == s.(pc := s.pc[c := Swap(s.epoch)])
  {
    hide IsRun;
    var s := run[|run| - 1];
    var g := s.epoch;
    r := CleanerStep(run, s.(pc := s.pc[c := First(0, g)]), c);
    r := CleanerStep(r, s.(pc := s.pc[c := First(1, g)]), c);
    r := CleanerStep(r, s.(pc := s.pc[c := Wait(0, g, 1, g)]), c);
    r := CleanerStep(r, s.(pc := s.pc[c := Wait(1, g, 1, g)]), c);
    r := CleanerStep(r, s.(pc := s.pc[c := Swap(g)]), c);
  }

  /** One thread and two cleaners, before anything has happened. */
  function Idle(): State {
    State(0, [Worker(false, 0, 0, -1)], [[], [], []], [Off, Off], [[], []], 0, map[], 0, map[])
  }

  lemma BothAtSwap() returns (run: seq<State>)
    ensures run != [] && IsRun(run) && run[0] == Idle()
    ensures run[|run| - 1] == Idle().(pc := [Swap(0), Swap(0)])
  {
    IsRunOne(Idle());
    hide IsRun;
    run := ToSwap([Idle()], 0);
    var s := run[|run| - 1];
    assert s.pc == [Swap(0), Off];
    run := ToSwap(run, 1);
    assert s.pc[1 := Swap(0)] == [Swap(0), Swap(0)];
  }

  /** One cleaner is held up at its swap while the other moves the epoch on. */
  lemma HeldUp() returns (run: seq<State>)
    ensures run != [] && IsRun(run) && run[0] == Idle()
    ensures run[|run| - 1] == State(1, [Worker(false, 0, 0, -1)], [[], [], []], [Swap(0), Drain], [[], []], 0, map[],
             1, map[])
  {
    hide IsRun, Enter, FirstLoop, WaitLoop, Free, Leave;
    var s0 := Idle();
    run := BothAtSwap();
    var s1 := s0.(pc := [Swap(0), Bump(0)]);
    assert SwapList(run[|run| - 1], s1, 1);
    run := CleanerStep(run, s1, 1);
    var s2 := s0.(pc := [Swap(0), Drain], epoch := 1, time := 1);
    assert NewEpoch(s1, s2, 1);
    run := CleanerStep(run, s2, 1);
  }

  /** A thread begins a section and retires a block in it. */
  lemma Retires(run: seq<State>, s: State, x: Entry) returns (r: seq<State>)
    requires run != [] && IsRun(run) && run[|run| - 1] == s && x == Entry(7, 0, 1)
    requires s == State(1, [Worker(false, 0, 0, -1)], [[], [], []], [Swap(0), Drain], [[], []], 0, map[], 1, map[])
    ensures r != [] && IsRun(r) && r[0] == run[0]
    ensures r[|r| - 1] == s.(workers := [Worker(true, 1, 0, -1)], n := 1, born := map[0 := 1], limbo := [[], [x], []])
  {
    hide IsRun;
    var s3 := s.(workers := [Worker(true, 1, 0, -1)], n := 1, born := map[0 := 1]);
    assert Start(s, s3, 0);
    r := WorkerStep(run, s3, 0);
    var s4 := s3.(workers := [Worker(true, 1, 0, 1)]);
    assert Look(s3, s4, 0);
    r := WorkerStep(r, s4, 0);
    var s5 := s3.(limbo := [[], [x], []]);
    assert [x] + s4.limbo[1] == [x];
    assert s4.limbo[1 := [x] + s4.limbo[1]] == s5.limbo;
    assert s4.workers[0 := s4.workers[0].(seen := -1)] == s5.workers;
    assert Push(s4, s5, 0, x);
    r := WorkerStep(r, s5, 0);
  }

  /** Two threads in epochclean at once are too many: one is held up before its swap while the other
      moves the epoch on, and then takes a block whose own section is still open. */
  lemma TwoCleaners() returns (run: seq<State>, x: Entry)
    ensures |run| >= 2 && IsRun(run) && |run[0].pc| == 2 && |run[0].workers| == 1
    ensures Free(run[|run| - 2], run[|run| - 1], 0, x) && x.sec >= 0 && !Safe(run[|run| - 2], x)
  {
    x := Entry(7, 0, 1);
    run := HeldUp();
    hide IsRun, Enter, FirstLoop, WaitLoop, Leave;
    run := Retires(run, run[|run| - 1], x);
    var s5 := run[|run| - 1];
    var s6 := s5.(limbo := [[], [], []], pc := [Bump(0), Drain], taken := [[x], []]);
    assert SwapList(s5, s6, 0);
    run := CleanerStep(run, s6, 0);
    var s7 := s6.(pc := [Drain, Drain], time := 2);
    assert NewEpoch(s6, s7, 0);
    run := CleanerStep(run, s7, 0);
    var s8 := s7.(taken := [[], []]);
    assert s7.taken[0][1..] == [];
    assert s7.taken[0 := s7.taken[0][1..]] == s8.taken;
    assert Free(s7, s8, 0, x);
    run := CleanerStep(run, s8, 0);
    assert run[|run| - 2] == s7;
  }

  lemma IsRunOne(s: State)
    requires Init(s)
    ensures IsRun([s])
  {
  }
}
