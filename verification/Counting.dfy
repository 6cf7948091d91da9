/** The two counting threads of `IPC_socket/thread.c` and the part of `main` that
    joins them. `main` also joins the message-queue and socket threads and, at the
    end, a thread that only the child process creates; whether those joins return is
    outside the model, so "reports" below means: reports once they have. */
module Counting {
  import opened Option

  datatype Tid = Sum | Sub

  /** Where a thread is in its loop. `commonVar += 1` is a load into a register
      followed by a store. */
  datatype Pc = Test | Lock | Load | Store(register: int) | Unlock | Increment | Done

  /** `count` is the loop variable, an unsigned integer with `width` values. */
  datatype Thread = Thread(pc: Pc, count: nat, bound: nat, width: nat)

  datatype MainPc = JoinSum | JoinSub | Report | Reported(value: int)

  datatype State = State(sum: Thread, sub: Thread, owner: Option<Tid>, commonVar: int, main: MainPc)

  /** Who takes the next step. */
  datatype Actor = Worker(t: Tid) | Main

  function Get(s: State, t: Tid): Thread {
    if t == Sum then s.sum else s.sub
  }

  function Put(s: State, t: Tid, th: Thread): State {
    if t == Sum then s.(sum := th) else s.(sub := th)
  }

  predicate Enabled(s: State, a: Actor) {
    match a
    case Worker(t) => Get(s, t).pc != Done && (Get(s, t).pc == Lock ==> s.owner == None)
    case Main =>
      match s.main
      case JoinSum => s.sum.pc == Done
      case JoinSub => s.sub.pc == Done
      case Report => true
      case Reported(_) => false
  }

  /** What one step of thread `t` does to itself, the mutex and the counter. */
  datatype Turn = Turn(th: Thread, owner: Option<Tid>, commonVar: int)

  function TakeTurn(th: Thread, t: Tid, owner: Option<Tid>, commonVar: int): Turn
    requires th.pc != Done && th.width > 0
  {
    match th.pc
    case Test => Turn(th.(pc := if th.count < th.bound then Lock else Done), owner, commonVar)
    case Lock => Turn(th.(pc := Load), Some(t), commonVar)
    case Load => Turn(th.(pc := Store(commonVar)), owner, commonVar)
    case Store(register) => Turn(th.(pc := Unlock), owner, register + 1)
    case Unlock => Turn(th.(pc := Increment), None, commonVar)
    case Increment => Turn(th.(pc := Test, count := (th.count + 1) % th.width), owner, commonVar)
  }

  function Advance(s: State, t: Tid): State
    requires Enabled(s, Worker(t)) && Get(s, t).width > 0
  {
    var turn := TakeTurn(Get(s, t), t, s.owner, s.commonVar);
    Put(s, t, turn.th).(owner := turn.owner, commonVar := turn.commonVar)
  }

  predicate Sane(s: State) {
    s.sum.width > 0 && s.sub.width > 0
  }

  function Do(s: State, a: Actor): (u: State)
    requires Sane(s) && Enabled(s, a)
    ensures Sane(u)
  {
    match a
    case Worker(t) => Advance(s, t)
    case Main =>
      match s.main
      case JoinSum => s.(main := JoinSub)
      case JoinSub => s.(main := Report)
      case _ => s.(main := Reported(s.commonVar))
  }

  function Init(start: int, sumBound: nat, sumWidth: nat, subBound: nat, subWidth: nat): State {
    State(Thread(Test, 0, sumBound, sumWidth), Thread(Test, 0, subBound, subWidth), None, start, JoinSum)
  }

  /** A schedule: who steps, one after the other. */
  predicate Runs(s: State, schedule: seq<Actor>)
    decreases |schedule|
  {
    schedule == [] || (Sane(s) && Enabled(s, schedule[0]) && Runs(Do(s, schedule[0]), schedule[1..]))
  }

  function After(s: State, schedule: seq<Actor>): State
    requires Runs(s, schedule)
    decreases |schedule|
  {
    if schedule == [] then s else After(Do(s, schedule[0]), schedule[1..])
  }

  /** Between lock and unlock. */
  predicate Holds(th: Thread) {
    th.pc.Load? || th.pc.Store? || th.pc.Unlock?
  }

  /** How much a thread has added so far. */
  function Added(th: Thread): nat {
    th.count + if th.pc.Unlock? || th.pc.Increment? then 1 else 0
  }

  ghost predicate ThreadInv(th: Thread, t: Tid, owner: Option<Tid>, commonVar: int, bound: nat) {
    && th.count <= th.bound == bound < th.width
    && (th.pc == Done ==> th.count == th.bound)
    && (th.pc != Done && th.pc != Test ==> th.count < th.bound)
    && (owner == Some(t) <==> Holds(th))
    && (th.pc.Store? ==> th.pc.register == commonVar)
  }

  /** The state of a program whose counter started at `start` and whose loops run
      n and m times. */
  ghost predicate Inv(s: State, start: int, n: nat, m: nat) {
    && ThreadInv(s.sum, Sum, s.owner, s.commonVar, n)
    && ThreadInv(s.sub, Sub, s.owner, s.commonVar, m)
    && s.commonVar == start + Added(s.sum) + Added(s.sub)
    && (s.main != JoinSum ==> s.sum.pc == Done)
    && (s.main != JoinSum && s.main != JoinSub ==> s.sub.pc == Done)
    && (s.main.Reported? ==> s.main.value == s.commonVar)
  }

  /** The number of steps left to a thread: six per iteration and the last test. */
  function ThreadSteps(th: Thread): int {
    6 * (th.bound - th.count) +
    match th.pc
    case Test => 1
    case Lock => 0
    case Load => -1
    case Store(_) => -2
    case Unlock => -3
    case Increment => -4
    case Done => 0
  }

  function MainSteps(m: MainPc): nat {
    match m case JoinSum => 3 case JoinSub => 2 case Report => 1 case Reported(_) => 0
  }

  function StepsLeft(s: State): int {
    ThreadSteps(s.sum) + ThreadSteps(s.sub) + MainSteps(s.main)
  }

  lemma CountsUp(count: nat, width: nat)
    requires count + 1 < width
    ensures (count + 1) % width == count + 1
  {
  }

  /** A turn keeps a thread's own invariant and counts what it adds. */
  lemma OwnTurn(th: Thread, t: Tid, owner: Option<Tid>, commonVar: int, bound: nat)
    requires ThreadInv(th, t, owner, commonVar, bound) && th.pc != Done && (th.pc == Lock ==> owner == None)
    ensures var u := TakeTurn(th, t, owner, commonVar);
      && ThreadInv(u.th, t, u.owner, u.commonVar, bound)
      && u.commonVar - commonVar == Added(u.th) - Added(th)
      && ThreadSteps(u.th) == ThreadSteps(th) - 1
  {
    if th.pc == Increment { CountsUp(th.count, th.width); }
  }

  /** A turn of one thread does not disturb the other. */
  lemma OtherTurn(
    th: Thread, t: Tid, other: Thread, o: Tid, owner: Option<Tid>, commonVar: int, bound: nat, otherBound: nat)
    requires t != o && ThreadInv(th, t, owner, commonVar, bound) && ThreadInv(other, o, owner, commonVar, otherBound)
    requires th.pc != Done && (th.pc == Lock ==> owner == None)
    ensures var u := TakeTurn(th, t, owner, commonVar); ThreadInv(other, o, u.owner, u.commonVar, otherBound)
  {
  }

  /** Every step keeps the invariant and brings the end one step nearer. */
  lemma StepKeepsInv(s: State, start: int, n: nat, m: nat, a: Actor)
    requires Inv(s, start, n, m) && Sane(s) && Enabled(s, a)
    ensures Inv(Do(s, a), start, n, m)
    ensures StepsLeft(Do(s, a)) == StepsLeft(s) - 1
  {
    match a
    case Worker(Sum) =>
      OwnTurn(s.sum, Sum, s.owner, s.commonVar, n);
      OtherTurn(s.sum, Sum, s.sub, Sub, s.owner, s.commonVar, n, m);
    case Worker(Sub) =>
      OwnTurn(s.sub, Sub, s.owner, s.commonVar, m);
      OtherTurn(s.sub, Sub, s.sum, Sum, s.owner, s.commonVar, m, n);
    case Main =>
  }

  lemma {:induction false} RunKeepsInv(s: State, start: int, n: nat, m: nat, schedule: seq<Actor>)
    requires Inv(s, start, n, m) && Runs(s, schedule)
    ensures Inv(After(s, schedule), start, n, m)
    ensures |schedule| + StepsLeft(After(s, schedule)) == StepsLeft(s)
    decreases |schedule|
  {
    if schedule != [] {
      StepKeepsInv(s, start, n, m, schedule[0]);
      RunKeepsInv(Do(s, schedule[0]), start, n, m, schedule[1..]);
    }
  }

  lemma Nearer(s: State, start: int, n: nat, m: nat, a: Actor)
    requires Inv(s, start, n, m) && Sane(s) && Enabled(s, a)
    ensures Inv(Do(s, a), start, n, m) && 0 <= StepsLeft(Do(s, a)) < StepsLeft(s)
  {
    StepKeepsInv(s, start, n, m, a);
    StepsLeftNonNegative(Do(s, a), start, n, m);
  }

  lemma FinalValue(s: State, start: int, n: nat, m: nat)
    requires Inv(s, start, n, m) && s.main.Reported?
    ensures s.main == Reported(start + n + m)
  {
  }

  /** Unless `main` has reported, somebody can step: there is no deadlock. */
  lemma Progress(s: State, start: int, n: nat, m: nat) returns (a: Actor)
    requires Inv(s, start, n, m) && !s.main.Reported?
    ensures Enabled(s, a)
  {
    if s.owner != None {
      a := Worker(s.owner.value);
    } else if s.sum.pc != Done {
      a := Worker(Sum);
    } else if s.sub.pc != Done {
      a := Worker(Sub);
    } else {
      a := Main;
    }
  }

  lemma StepsLeftNonNegative(s: State, start: int, n: nat, m: nat)
    requires Inv(s, start, n, m)
    ensures StepsLeft(s) >= 0
    ensures StepsLeft(s) == 0 <==> s.main.Reported?
  {
  }

  /** The loop bounds are reached before the loop counters can wrap. */
  ghost predicate BoundsFit(sumBound: nat, sumWidth: nat, subBound: nat, subWidth: nat) {
    sumBound < sumWidth && subBound < subWidth
  }

  /** Any schedule whatever: at most one thread is between lock and unlock; the
      shared counter never leaves [start, start + both counts], so it cannot
      overflow an `int` that holds the final value; when nobody can step any more
      `main` has reported the start value plus both counts; and that is so after
      exactly 6 steps per iteration and 5 more. */
  lemma EverySchedule(
    start: int, n: nat, nWidth: nat, m: nat, mWidth: nat, schedule: seq<Actor>)
    requires BoundsFit(n, nWidth, m, mWidth)
    requires Runs(Init(start, n, nWidth, m, mWidth), schedule)
    ensures var s := After(Init(start, n, nWidth, m, mWidth), schedule);
      && !(Holds(s.sum) && Holds(s.sub))
      && start <= s.commonVar <= start + n + m
      && ((forall a: Actor :: !Enabled(s, a)) <==> s.main == Reported(start + n + m))
      && (s.main.Reported? <==> |schedule| == 6 * (n + m) + 5)
      && |schedule| <= 6 * (n + m) + 5
  {
    var s0 := Init(start, n, nWidth, m, mWidth);
    var s := After(s0, schedule);
    RunKeepsInv(s0, start, n, m, schedule);
    StepsLeftNonNegative(s, start, n, m);
    if !s.main.Reported? {
      var a := Progress(s, start, n, m);
    }
  }

  /** A run of the two threads and `main` to the end. */
  lemma {:induction false} Finish(s: State, start: int, n: nat, m: nat) returns (schedule: seq<Actor>)
    requires Inv(s, start, n, m) && Sane(s)
    ensures Runs(s, schedule) && After(s, schedule).main.Reported?
    decreases StepsLeft(s)
  {
    StepsLeftNonNegative(s, start, n, m);
    if s.main.Reported? {
      schedule := [];
    } else {
      var a := Progress(s, start, n, m);
      Nearer(s, start, n, m, a);
      var rest := Finish(Do(s, a), start, n, m);
      schedule := [a] + rest;
      assert schedule[1..] == rest;
    }
  }

  /** A loop whose counter wraps before the bound never ends. */
  ghost predicate Endless(th: Thread) {
    th.count < th.width <= th.bound && th.pc != Done
  }

  lemma {:induction false} StaysEndless(s: State, t: Tid, schedule: seq<Actor>)
    requires Sane(s) && Runs(s, schedule) && Endless(Get(s, t))
    requires s.main == JoinSum || (t == Sub && s.main == JoinSub)
    ensures !After(s, schedule).main.Reported?
    decreases |schedule|
  {
    if schedule != [] {
      StaysEndless(Do(s, schedule[0]), t, schedule[1..]);
    }
  }

  ghost predicate CanFinish(s: State) {
    exists schedule :: Runs(s, schedule) && After(s, schedule).main.Reported?
  }

  /** The program can finish if and only if both bounds fit their counters: 65535
      is the largest bound the `uint16_t` loop could have. */
  lemma FinishesIffBoundsFit(start: int, n: nat, nWidth: nat, m: nat, mWidth: nat)
    requires nWidth > 0 && mWidth > 0
    ensures CanFinish(Init(start, n, nWidth, m, mWidth)) <==> BoundsFit(n, nWidth, m, mWidth)
  {
    var s := Init(start, n, nWidth, m, mWidth);
    if BoundsFit(n, nWidth, m, mWidth) {
      var schedule := Finish(s, start, n, m);
    } else {
      forall schedule | Runs(s, schedule) ensures !After(s, schedule).main.Reported? {
        StaysEndless(s, if n < nWidth then Sub else Sum, schedule);
      }
    }
  }

  /** The program text: 65535 iterations each, on an `unsigned int` and a
      `uint16_t`, from `commonVar = 10`. */
  function Program(): State {
    Init(10, 65535, 0x1_0000_0000, 65535, 0x1_0000)
  }

  /** The process as an object: the threads take turns at its shared variables. */
  class Process {
    var sum: Thread
    var sub: Thread
    var owner: Option<Tid>
    var commonVar: int
    var main: MainPc

    function Abs(): State
      reads this
    {
      State(sum, sub, owner, commonVar, main)
    }

    constructor ()
      ensures Abs() == Program() && Sane(Abs()) && Inv(Abs(), 10, 65535, 65535)
    {
      sum, sub := Thread(Test, 0, 65535, 0x1_0000_0000), Thread(Test, 0, 65535, 0x1_0000);
      owner, commonVar, main := None, 10, JoinSum;
    }

    method Step(a: Actor)
      requires Sane(Abs()) && Enabled(Abs(), a)
      modifies this
      ensures Abs() == Do(old(Abs()), a)
    {
      match a
      case Worker(t) =>
        var th := if t == Sum then sum else sub;
        match th.pc {
          case Test => th := th.(pc := if th.count < th.bound then Lock else Done);
          case Lock => owner, th := Some(t), th.(pc := Load);
          case Load => th := th.(pc := Store(commonVar));
          case Store(register) => commonVar, th := register + 1, th.(pc := Unlock);
          case Unlock => owner, th := None, th.(pc := Increment);
          case Increment => th := th.(pc := Test, count := (th.count + 1) % th.width);
        }
        if t == Sum { sum := th; } else { sub := th; }
      case Main =>
        if main == JoinSum {
          main := JoinSub;
        } else if main == JoinSub {
          main := Report;
        } else {
          main := Reported(commonVar);
        }
    }

    /** The actor the scheduler asks for, or another one if that one is blocked. */
    method Choose(asked: Actor, ghost start: int, ghost n: nat, ghost m: nat) returns (a: Actor)
      requires Inv(Abs(), start, n, m) && !main.Reported?
      ensures Enabled(Abs(), a) && (Enabled(Abs(), asked) ==> a == asked)
    {
      ghost var someone := Progress(Abs(), start, n, m);
      a := asked;
      if !Enabled(Abs(), a) { a := Worker(Sum); }
      if !Enabled(Abs(), a) { a := Worker(Sub); }
      if !Enabled(Abs(), a) { a := Main; }
      assert someone == Main || someone == Worker(Sum) || someone == Worker(Sub);
    }

    /** Running to the end under a scheduler that may pick anybody who can step. */
    method RunToEnd(pick: nat -> Actor, ghost start: int, ghost n: nat, ghost m: nat)
      requires Sane(Abs()) && Inv(Abs(), start, n, m)
      modifies this
      ensures main == Reported(start + n + m)
    {
      var turn := 0;
      while !main.Reported?
        invariant Sane(Abs()) && Inv(Abs(), start, n, m)
        decreases StepsLeft(Abs())
      {
        ghost var s := Abs();
        var a := Choose(pick(turn), start, n, m);
        Nearer(s, start, n, m, a);
        Step(a);
        assert Abs() == Do(s, a);
        turn := turn + 1;
      }
      FinalValue(Abs(), start, n, m);
    }
  }

  method Start() returns (p: Process)
    ensures fresh(p) && Sane(p.Abs()) && Inv(p.Abs(), 10, 65535, 65535)
  {
    p := new Process();
  }

  /** Started, the two counting threads end, and after its joins of these two `main`
      reports 131080, whatever the scheduler does. */
  method RunProgram(pick: nat -> Actor) returns (reported: int)
    ensures reported == 131080
  {
    var p := Start();
    p.RunToEnd(pick, 10, 65535, 65535);
    reported := p.main.value;
  }
}
