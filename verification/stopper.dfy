/** Stopping a child: interrupt, terminate, kill, each with its share of the time
    budget. The clock is idealised: only sleeping takes time, in milliseconds. */
module Stopper {
  datatype Signal = SIGINT | SIGTERM | SIGKILL

  type Pid = int

  datatype Result =
    | Stopped(status: int)
    | TimedOut
    | WaitFailed

  datatype Sent = Sent(pid: Pid, signal: Signal, at: real)

  /** When the child stops being alive, counted in polls of the helper: the first
      poll that does not find it running yields its exit status or an error. */
  datatype Fate =
    | Survives
    | Ends(poll: nat, verdict: Verdict)

  datatype Verdict = ExitStatus(status: int) | WaitError

  function Outcome(v: Verdict): Result {
    match v
    case ExitStatus(st) => Stopped(st)
    case WaitError => WaitFailed
  }

  /** The first `n` polls find the child alive. */
  predicate AliveUpTo(f: Fate, n: int) {
    f.Ends? ==> n <= f.poll
  }

  /** What the poll with index `i` answers. */
  function PollAnswer(f: Fate, i: nat): Result {
    if AliveUpTo(f, i + 1) then TimedOut else Outcome(f.verdict)
  }

  // ---- Budgets ---------------------------------------------------------------------------

  function IntBudget(total: real): real { total * 0.5 }
  function TermBudget(total: real): real { total * 0.35 }
  function KillBudget(total: real): real { total - IntBudget(total) - TermBudget(total) }

  /** The budgets are non-negative and use up the total. */
  lemma BudgetsSum(total: real)
    requires total >= 0.0
    ensures IntBudget(total) >= 0.0 && TermBudget(total) >= 0.0 && KillBudget(total) >= 0.0
    ensures IntBudget(total) + TermBudget(total) + KillBudget(total) == total
  {
  }

  /** The number of polls of a wait that runs into its deadline. */
  function FullPolls(dur: real): (n: nat)
    requires dur >= 0.0
    ensures n >= 1 && 20.0 * ((n - 1) as real) >= dur
    ensures n >= 2 ==> 20.0 * ((n - 2) as real) < dur
  {
    var whole := (dur / 20.0).Floor;
    if whole as real == dur / 20.0 then whole + 1 else whole + 2
  }

  // ---- The escalation ---------------------------------------------------------------------

  datatype Waited = Waited(result: Result, polls: nat, elapsed: real)

  /** A wait polls every 20 ms until a poll decides or the deadline has passed;
      `done` polls came before it. */
  function Wait(f: Fate, done: nat, dur: real): Waited
    requires dur >= 0.0 && AliveUpTo(f, done)
  {
    var n := FullPolls(dur);
    if AliveUpTo(f, done + n) then Waited(TimedOut, n, 20.0 * ((n - 1) as real))
    else Waited(Outcome(f.verdict), f.poll - done + 1, 20.0 * ((f.poll - done) as real))
  }

  /** A run of the helper: the time and the number of polls done at the start of each
      phase entered, and the totals so far. */
  datatype Plan = Plan(result: Result, starts: seq<real>, pollsBefore: seq<nat>, polls: nat, elapsed: real)

  const UNSTARTED := Plan(TimedOut, [], [], 0, 0.0)

  /** While the plan is open, all its polls found the child alive. */
  predicate Open(f: Fate, p: Plan) {
    p.result.TimedOut? ==> AliveUpTo(f, p.polls)
  }

  /** The next phase is entered only when the previous wait ran into its deadline. */
  function Phase(f: Fate, p: Plan, budget: real): (q: Plan)
    requires budget >= 0.0 && Open(f, p)
    ensures Open(f, q)
  {
    if !p.result.TimedOut? then p
    else
      var w := Wait(f, p.polls, budget);
      Plan(w.result, p.starts + [p.elapsed], p.pollsBefore + [p.polls], p.polls + w.polls, p.elapsed + w.elapsed)
  }

  /** After the last deadline one more poll is made. */
  function LastLook(f: Fate, p: Plan): Plan {
    if p.result.TimedOut? then p.(result := PollAnswer(f, p.polls), polls := p.polls + 1) else p
  }

  predicate NonNegative(budgets: seq<real>) {
    forall i :: 0 <= i < |budgets| ==> budgets[i] >= 0.0
  }

  /** The phases with the given budgets, one after the other. */
  function Phases(f: Fate, budgets: seq<real>): (p: Plan)
    requires NonNegative(budgets)
    ensures Open(f, p)
  {
    if budgets == [] then UNSTARTED
    else Phase(f, Phases(f, budgets[..|budgets| - 1]), budgets[|budgets| - 1])
  }

  function Budgets(total: real): seq<real> {
    [IntBudget(total), TermBudget(total), KillBudget(total)]
  }

  function StopPlan(f: Fate, total: real): Plan
    requires total >= 0.0
  {
    BudgetsSum(total);
    LastLook(f, Phase(f, Phase(f, Phase(f, UNSTARTED, IntBudget(total)), TermBudget(total)), KillBudget(total)))
  }

  lemma WaitFacts(f: Fate, done: nat, dur: real)
    requires dur >= 0.0 && AliveUpTo(f, done)
    ensures var w := Wait(f, done, dur);
            && w.polls >= 1 && 0.0 <= w.elapsed < dur + 20.0
            && AliveUpTo(f, done + w.polls - 1) && w.result == PollAnswer(f, done + w.polls - 1)
            && (AliveUpTo(f, done + w.polls) ==> w.elapsed >= dur)
  {
    var n := FullPolls(dur);
    if !AliveUpTo(f, done + n) {
      assert 20.0 * ((f.poll - done) as real) <= 20.0 * ((n - 1) as real);
    }
  }

  /** Phase `j` starts within one poll after the budget of the phase before it. */
  predicate Spaced(starts: seq<real>, budgets: seq<real>, j: nat)
    requires 1 <= j < |starts| <= |budgets|
  {
    starts[j - 1] + budgets[j - 1] <= starts[j] < starts[j - 1] + budgets[j - 1] + 20.0
  }

  /** What holds after the phases with the given budgets; `spent` is their sum. */
  ghost predicate PlanOk(f: Fate, p: Plan, budgets: seq<real>, spent: real) {
    && Open(f, p)
    && |p.starts| == |p.pollsBefore| <= |budgets|
    && (forall j :: 0 <= j < |p.pollsBefore| ==> AliveUpTo(f, p.pollsBefore[j]))
    && (forall j :: 1 <= j < |p.starts| ==> Spaced(p.starts, budgets, j))
    && (p.result.TimedOut? ==> p.elapsed >= spent && |p.starts| == |budgets|)
    && (p.result.TimedOut? && p.starts != [] ==>
          var deadline := p.starts[|p.starts| - 1] + budgets[|p.starts| - 1];
          deadline <= p.elapsed < deadline + 20.0)
    && p.elapsed <= spent + 20.0 * (|p.starts| as real)
  }

  ghost predicate Begun(f: Fate, p: Plan, spent: real) {
    && p.starts != [] && p.starts[0] == 0.0 && p.polls >= 1
    && p.elapsed < spent + 20.0 * (|p.starts| as real)
    && AliveUpTo(f, p.polls - 1) && p.result == PollAnswer(f, p.polls - 1)
  }

  lemma PhaseKeepsOk(f: Fate, p: Plan, budgets: seq<real>, spent: real, budget: real)
    requires budget >= 0.0 && PlanOk(f, p, budgets, spent)
    requires p == UNSTARTED || Begun(f, p, spent)
    ensures PlanOk(f, Phase(f, p, budget), budgets + [budget], spent + budget)
    ensures Begun(f, Phase(f, p, budget), spent + budget)
  {
    if p.result.TimedOut? {
      var w := Wait(f, p.polls, budget);
      WaitFacts(f, p.polls, budget);
      var starts := Phase(f, p, budget).starts;
      forall j | 1 <= j < |starts| ensures Spaced(starts, budgets + [budget], j) {
        assert j < |p.starts| ==> Spaced(p.starts, budgets, j);
      }
    } else {
      forall j | 1 <= j < |p.starts| ensures Spaced(p.starts, budgets + [budget], j) {
        assert Spaced(p.starts, budgets, j);
      }
    }
  }

  function Sum(budgets: seq<real>): real {
    if budgets == [] then 0.0 else Sum(budgets[..|budgets| - 1]) + budgets[|budgets| - 1]
  }

  lemma PhasesSnoc(f: Fate, spent: seq<real>, budget: real)
    requires NonNegative(spent) && budget >= 0.0
    ensures Phases(f, spent + [budget]) == Phase(f, Phases(f, spent), budget)
  {
    assert (spent + [budget])[..|spent|] == spent;
  }

  lemma UnstartedOk(f: Fate)
    ensures PlanOk(f, UNSTARTED, [], 0.0)
  {
  }

  lemma SumSnoc(front: seq<real>, last: real)
    ensures Sum(front + [last]) == Sum(front) + last
  {
    assert (front + [last])[..|front|] == front;
  }

  /** One more phase; `front` is followed by `last`. */
  lemma PhasesOkSnoc(f: Fate, front: seq<real>, last: real)
    requires NonNegative(front) && last >= 0.0
    requires PlanOk(f, Phases(f, front), front, Sum(front))
    requires front == [] || Begun(f, Phases(f, front), Sum(front))
    ensures PlanOk(f, Phases(f, front + [last]), front + [last], Sum(front + [last]))
    ensures Begun(f, Phases(f, front + [last]), Sum(front + [last]))
  {
    SumSnoc(front, last);
    PhaseKeepsOk(f, Phases(f, front), front, Sum(front), last);
    PhasesSnoc(f, front, last);
  }

  lemma {:induction false} PhasesOk(f: Fate, budgets: seq<real>)
    requires NonNegative(budgets)
    ensures PlanOk(f, Phases(f, budgets), budgets, Sum(budgets))
    ensures budgets != [] ==> Begun(f, Phases(f, budgets), Sum(budgets))
  {
    if budgets == [] {
      UnstartedOk(f);
    } else {
      var front := budgets[..|budgets| - 1];
      var last := budgets[|budgets| - 1];
      PhasesOk(f, front);
      PhasesOkSnoc(f, front, last);
      assert budgets == front + [last];
    }
  }

  lemma SumBudgets(total: real)
    requires total >= 0.0
    ensures NonNegative(Budgets(total)) && Sum(Budgets(total)) == total
  {
    var b := Budgets(total);
    BudgetsSum(total);
    assert b[..2] == [b[0], b[1]] && [b[0], b[1]][..1] == [b[0]] && [b[0]][..0] == [];
    assert Sum([b[0]]) == b[0];
    assert Sum([b[0], b[1]]) == b[0] + b[1];
  }

  lemma ThreePhases(f: Fate, b: seq<real>)
    requires |b| == 3 && NonNegative(b)
    ensures var p := Phases(f, b);
            && 1 <= |p.starts| == |p.pollsBefore| <= 3 && p.starts[0] == 0.0
            && (|p.starts| > 1 ==> b[0] <= p.starts[1] < b[0] + 20.0)
            && (|p.starts| > 2 ==> p.starts[1] + b[1] <= p.starts[2] < p.starts[1] + b[1] + 20.0)
            && forall j :: 0 <= j < |p.starts| ==> AliveUpTo(f, p.pollsBefore[j])
  {
    PhasesOk(f, b);
    var starts := Phases(f, b).starts;
    assert |starts| > 1 ==> Spaced(starts, b, 1);
    assert |starts| > 2 ==> Spaced(starts, b, 2);
  }

  lemma BudgetPhases(f: Fate, total: real)
    requires total >= 0.0
    ensures IntBudget(total) >= 0.0 && TermBudget(total) >= 0.0 && KillBudget(total) >= 0.0
    ensures NonNegative(Budgets(total)) && StopPlan(f, total) == LastLook(f, Phases(f, Budgets(total)))
  {
    BudgetsSum(total);
    var b := Budgets(total);
    assert b == ([] + [b[0]]) + [b[1]] + [b[2]];
    PhasesSnoc(f, [], b[0]);
    PhasesSnoc(f, [] + [b[0]], b[1]);
    PhasesSnoc(f, [] + [b[0]] + [b[1]], b[2]);
  }

  /** Each phase after the first starts only after the child outlived the deadline of
      the one before: its budget has passed and every poll so far found it alive. */
  lemma EscalationIsLastResort(f: Fate, total: real)
    requires total >= 0.0
    ensures var p := StopPlan(f, total);
            && 1 <= |p.starts| == |p.pollsBefore| <= 3 && p.starts[0] == 0.0
            && (|p.starts| > 1 ==> IntBudget(total) <= p.starts[1] < IntBudget(total) + 20.0)
            && (|p.starts| > 2 ==> p.starts[1] + TermBudget(total) <= p.starts[2] < p.starts[1] + TermBudget(total) + 20.0)
            && forall j :: 0 <= j < |p.starts| ==> AliveUpTo(f, p.pollsBefore[j])
  {
    SumBudgets(total);
    BudgetPhases(f, total);
    ThreePhases(f, Budgets(total));
  }

  /** Success means the last poll reaped the child and every earlier one found it
      alive; a time-out means that all polls did, after the whole budget. The helper
      never takes more than the budget and three polls. */
  lemma ResultIsLastPoll(f: Fate, total: real)
    requires total >= 0.0
    ensures var p := StopPlan(f, total);
            && p.polls >= 1 && AliveUpTo(f, p.polls - 1) && p.result == PollAnswer(f, p.polls - 1)
            && (p.result.TimedOut? ==> AliveUpTo(f, p.polls) && p.elapsed >= total)
            && p.elapsed < total + 60.0
  {
    SumBudgets(total);
    BudgetPhases(f, total);
    PhasesOk(f, Budgets(total));
    assert 20.0 * (|Phases(f, Budgets(total)).starts| as real) <= 60.0;
  }

  function PhaseSignal(j: nat): Signal {
    if j == 0 then SIGINT else if j == 1 then SIGTERM else SIGKILL
  }

  /** One signal to every direct child, then to the process itself. */
  function Volley(children: seq<Pid>, parent: Pid, signal: Signal, at: real): seq<Sent> {
    seq(|children|, i requires 0 <= i < |children| => Sent(children[i], signal, at)) + [Sent(parent, signal, at)]
  }

  /** The volleys of the phases entered, in order. */
  function Volleys(children: seq<Pid>, parent: Pid, start: real, phases: seq<real>): seq<Sent> {
    if phases == [] then []
    else
      var j := |phases| - 1;
      Volleys(children, parent, start, phases[..j]) + Volley(children, parent, PhaseSignal(j), start + phases[j])
  }

  lemma VolleysSnoc(children: seq<Pid>, parent: Pid, start: real, phases: seq<real>, next: real)
    ensures Volleys(children, parent, start, phases + [next])
         == Volleys(children, parent, start, phases) + Volley(children, parent, PhaseSignal(|phases|), start + next)
  {
    assert (phases + [next])[..|phases|] == phases;
  }

  // ---- What is sent and when ---------------------------------------------------------------

  /** A volley reaches every direct child in order, and then the process itself. */
  lemma VolleyExact(children: seq<Pid>, parent: Pid, signal: Signal, at: real)
    ensures var v := Volley(children, parent, signal, at);
            && |v| == |children| + 1 && v[|children|] == Sent(parent, signal, at)
            && forall c :: 0 <= c < |children| ==> v[c] == Sent(children[c], signal, at)
  {
  }

  /** What was sent is the three volleys, or those of them that were reached. */
  predicate InOrder(sent: seq<Sent>, children: seq<Pid>, parent: Pid, t0: real, t1: real, t2: real) {
    var first := Volley(children, parent, SIGINT, t0);
    var second := first + Volley(children, parent, SIGTERM, t1);
    sent == first || sent == second || sent == second + Volley(children, parent, SIGKILL, t2)
  }

  lemma FirstVolley(children: seq<Pid>, parent: Pid, start: real)
    ensures Volleys(children, parent, start, [0.0]) == Volley(children, parent, SIGINT, start)
  {
    VolleysSnoc(children, parent, start, [], 0.0);
    assert [] + [0.0] == [0.0] && start + 0.0 == start;
  }

  lemma VolleysLast(children: seq<Pid>, parent: Pid, start: real, starts: seq<real>)
    requires starts != []
    ensures var last := |starts| - 1;
            Volleys(children, parent, start, starts)
              == Volleys(children, parent, start, starts[..last])
               + Volley(children, parent, PhaseSignal(last), start + starts[last])
  {
  }

  lemma SecondVolley(children: seq<Pid>, parent: Pid, start: real, starts: seq<real>)
    requires |starts| == 2 && starts[0] == 0.0
    ensures Volleys(children, parent, start, starts)
         == Volley(children, parent, SIGINT, start) + Volley(children, parent, SIGTERM, start + starts[1])
  {
    FirstVolley(children, parent, start);
    assert starts[..1] == [0.0];
    VolleysLast(children, parent, start, starts);
  }

  lemma ThirdVolley(children: seq<Pid>, parent: Pid, start: real, starts: seq<real>)
    requires |starts| == 3 && starts[0] == 0.0
    ensures Volleys(children, parent, start, starts)
         == Volley(children, parent, SIGINT, start) + Volley(children, parent, SIGTERM, start + starts[1])
          + Volley(children, parent, SIGKILL, start + starts[2])
  {
    SecondVolley(children, parent, start, starts[..2]);
    VolleysLast(children, parent, start, starts);
  }

  /** When phase `j` starts, or some time if it never does. */
  function PhaseAt(start: real, starts: seq<real>, j: nat, otherwise: real): real {
    if j < |starts| then start + starts[j] else otherwise
  }

  lemma VolleysInOrder(children: seq<Pid>, parent: Pid, start: real, starts: seq<real>, second: real, third: real)
    requires 1 <= |starts| <= 3 && starts[0] == 0.0
    ensures InOrder(Volleys(children, parent, start, starts), children, parent, start,
                    PhaseAt(start, starts, 1, second), PhaseAt(start, starts, 2, third))
  {
    if |starts| == 1 {
      FirstVolley(children, parent, start);
      assert starts == [0.0];
    } else if |starts| == 2 {
      SecondVolley(children, parent, start, starts);
    } else {
      ThirdVolley(children, parent, start, starts);
    }
  }

  /** The second phase starts after half the total and the third after 85 percent of it,
      each at most one poll later than the one before it makes necessary. */
  predicate Escalating(starts: seq<real>, total: real) {
    && 1 <= |starts| <= 3 && starts[0] == 0.0
    && (|starts| > 1 ==> 0.5 * total <= starts[1] < 0.5 * total + 20.0)
    && (|starts| > 2 ==> 0.85 * total <= starts[2] < 0.85 * total + 40.0)
  }

  lemma StopEscalates(f: Fate, total: real)
    requires total >= 0.0
    ensures Escalating(StopPlan(f, total).starts, total)
  {
    EscalationIsLastResort(f, total);
  }

  /** One volley of interrupts is sent at once, then, if it comes to that, one of
      terminations after half the total, and one of kills after 85 percent of it. */
  lemma SignalsEscalate(starts: seq<real>, total: real, children: seq<Pid>, parent: Pid, start: real) returns (t1: real, t2: real)
    requires total >= 0.0 && Escalating(starts, total)
    ensures start + 0.5 * total <= t1 < start + 0.5 * total + 20.0
    ensures start + 0.85 * total <= t2 < start + 0.85 * total + 40.0
    ensures InOrder(Volleys(children, parent, start, starts), children, parent, start, t1, t2)
  {
    t1, t2 := PhaseAt(start, starts, 1, start + 0.5 * total), PhaseAt(start, starts, 2, start + 0.85 * total);
    VolleysInOrder(children, parent, start, starts, start + 0.5 * total, start + 0.85 * total);
  }

  /** Signal by signal: interrupts come first and at once, a termination only after an
      interrupt to the same process and half the total, a kill only after a termination
      to the same process and 85 percent of it. */
  predicate RightlySent(sent: seq<Sent>, i: nat, start: real, total: real)
    requires i < |sent|
  {
    match sent[i].signal
    case SIGINT => sent[i].at == start && forall j :: 0 <= j < i ==> sent[j].signal == SIGINT
    case SIGTERM =>
      && start + 0.5 * total <= sent[i].at < start + 0.5 * total + 20.0
      && exists j :: 0 <= j < i && sent[j].pid == sent[i].pid && sent[j].signal == SIGINT
    case SIGKILL =>
      && start + 0.85 * total <= sent[i].at < start + 0.85 * total + 40.0
      && exists j :: 0 <= j < i && sent[j].pid == sent[i].pid && sent[j].signal == SIGTERM
  }

  lemma OrderIsRight(sent: seq<Sent>, children: seq<Pid>, parent: Pid, start: real, t1: real, t2: real, total: real, i: nat)
    requires InOrder(sent, children, parent, start, t1, t2) && i < |sent|
    requires start + 0.5 * total <= t1 < start + 0.5 * total + 20.0
    requires start + 0.85 * total <= t2 < start + 0.85 * total + 40.0
    ensures RightlySent(sent, i, start, total)
  {
    var n := |children| + 1;
    VolleyExact(children, parent, SIGINT, start);
    VolleyExact(children, parent, SIGTERM, t1);
    VolleyExact(children, parent, SIGKILL, t2);
    if i >= n {
      assert sent[i].pid == sent[i - n].pid;
    }
  }

  lemma VolleysRightlySent(starts: seq<real>, total: real, children: seq<Pid>, parent: Pid, start: real)
    requires total >= 0.0 && Escalating(starts, total)
    ensures var sent := Volleys(children, parent, start, starts);
            forall i :: 0 <= i < |sent| ==> RightlySent(sent, i, start, total)
  {
    var sent := Volleys(children, parent, start, starts);
    var t1, t2 := SignalsEscalate(starts, total, children, parent, start);
    forall i | 0 <= i < |sent| ensures RightlySent(sent, i, start, total) {
      OrderIsRight(sent, children, parent, start, t1, t2, total, i);
    }
  }

  /** So every signal of the helper is rightly sent, whatever the child does. */
  lemma EverySignalIsRightlySent(f: Fate, total: real, children: seq<Pid>, parent: Pid, start: real)
    requires total >= 0.0
    ensures var sent := Volleys(children, parent, start, StopPlan(f, total).starts);
            forall i :: 0 <= i < |sent| ==> RightlySent(sent, i, start, total)
  {
    StopEscalates(f, total);
    VolleysRightlySent(StopPlan(f, total).starts, total, children, parent, start);
  }

  /** How many polls the helper makes of a child that never ends. */
  function AllPolls(total: real): nat
    requires total >= 0.0
  {
    BudgetsSum(total);
    ThreePolls(IntBudget(total), TermBudget(total), KillBudget(total)) + 1
  }

  function ThreePolls(a: real, b: real, c: real): nat
    requires a >= 0.0 && b >= 0.0 && c >= 0.0
  {
    FullPolls(a) + FullPolls(b) + FullPolls(c)
  }

  /** After phases that have room for `polls` polls. */
  predicate Spent(f: Fate, p: Plan, polls: nat) {
    && (p.result.TimedOut? <==> AliveUpTo(f, polls))
    && (if p.result.TimedOut? then p.polls == polls else p.polls == f.poll + 1 && p.polls <= polls)
    && p.elapsed == 20.0 * ((p.polls - |p.starts|) as real)
  }

  lemma PhaseSpends(f: Fate, p: Plan, budget: real, polls: nat)
    requires budget >= 0.0 && Open(f, p) && Spent(f, p, polls)
    ensures Spent(f, Phase(f, p, budget), polls + FullPolls(budget))
  {
    if p.result.TimedOut? {
      var w := Wait(f, p.polls, budget);
      assert w.elapsed == 20.0 * ((w.polls - 1) as real);
    }
  }

  lemma OneSpends(f: Fate, a: real)
    requires a >= 0.0
    ensures Spent(f, Phase(f, UNSTARTED, a), FullPolls(a))
  {
    PhaseSpends(f, UNSTARTED, a, 0);
  }

  lemma TwoSpend(f: Fate, a: real, b: real)
    requires a >= 0.0 && b >= 0.0
    ensures Spent(f, Phase(f, Phase(f, UNSTARTED, a), b), FullPolls(a) + FullPolls(b))
  {
    OneSpends(f, a);
    PhaseSpends(f, Phase(f, UNSTARTED, a), b, FullPolls(a));
  }

  lemma ThreeSpend(f: Fate, a: real, b: real, c: real)
    requires a >= 0.0 && b >= 0.0 && c >= 0.0
    ensures Spent(f, Phase(f, Phase(f, Phase(f, UNSTARTED, a), b), c), ThreePolls(a, b, c))
  {
    TwoSpend(f, a, b);
    PhaseSpends(f, Phase(f, Phase(f, UNSTARTED, a), b), c, FullPolls(a) + FullPolls(b));
  }

  lemma LastLookSpends(f: Fate, p: Plan, polls: nat)
    requires Open(f, p) && Spent(f, p, polls)
    ensures var q := LastLook(f, p);
            && (q.result.TimedOut? <==> AliveUpTo(f, polls + 1))
            && (q.result.TimedOut? ==> q.polls == polls + 1)
            && q.elapsed == 20.0 * ((q.polls - |q.starts| - (if q.polls == polls + 1 then 1 else 0)) as real)
  {
  }

  /** The helper gives up exactly on a child that outlives all of its polls, the last of
      which comes after the last deadline. Polls of one wait are 20 ms apart: its time is
      20 ms for every poll but the first of each phase and the last look. */
  lemma GivesUpExactly(f: Fate, total: real)
    requires total >= 0.0
    ensures var p := StopPlan(f, total);
            && (p.result.TimedOut? <==> AliveUpTo(f, AllPolls(total)))
            && (p.result.TimedOut? ==> p.polls == AllPolls(total))
            && p.elapsed == 20.0 * ((p.polls - |p.starts| - (if p.polls == AllPolls(total) then 1 else 0)) as real)
  {
    BudgetsSum(total);
    var a, b, c := IntBudget(total), TermBudget(total), KillBudget(total);
    ThreeSpend(f, a, b, c);
    LastLookSpends(f, Phase(f, Phase(f, Phase(f, UNSTARTED, a), b), c), ThreePolls(a, b, c));
  }

  // ---- The helper ------------------------------------------------------------------------------------

  class ChildProcess {
    const pid: Pid
    const fate: Fate
    var polls: nat
    var now: real
    var sent: seq<Sent>

    constructor (pid: Pid, fate: Fate, now: real)
      ensures this.pid == pid && this.fate == fate && this.now == now && polls == 0 && sent == []
    {
      this.pid, this.fate, this.now, polls, sent := pid, fate, now, 0, [];
    }

    method TryWait() returns (a: Result)
      modifies this`polls
      ensures a == PollAnswer(fate, old(polls)) && polls == old(polls) + 1
    {
      a := PollAnswer(fate, polls);
      polls := polls + 1;
    }

    method SendAll(children: seq<Pid>, signal: Signal)
      modifies this`sent
      ensures sent == old(sent) + Volley(children, pid, signal, now)
    {
      for i := 0 to |children|
        invariant sent == old(sent) + Volley(children, pid, signal, now)[..i]
      {
        sent := sent + [Sent(children[i], signal, now)];
      }
      sent := sent + [Sent(pid, signal, now)];
    }

    method WaitWithDeadline(dur: real) returns (result: Result)
      requires dur >= 0.0 && AliveUpTo(fate, polls)
      modifies this`polls, this`now
      ensures var w := Wait(fate, old(polls), dur);
              result == w.result && polls == old(polls) + w.polls && now == old(now) + w.elapsed
    {
      var start := now;
      ghost var k := 0;
      ghost var n := FullPolls(dur);
      while true
        invariant 0 <= k < n && polls == old(polls) + k && now == start + 20.0 * (k as real)
        invariant AliveUpTo(fate, polls)
        decreases n - k
      {
        result := TryWait();
        if !result.TimedOut? {
          return;
        }
        if now - start >= dur {
          return TimedOut;
        }
        now := now + 20.0;
        k := k + 1;
      }
    }

    /** One phase after the plan `p`: a volley, then a wait for its budget. */
    method RunPhase(children: seq<Pid>, signal: Signal, budget: real,
                    ghost p: Plan, ghost start: real, ghost before: seq<Sent>)
      returns (result: Result)
      requires budget >= 0.0 && Open(fate, p) && p.result.TimedOut?
      requires polls == p.polls && now == start + p.elapsed && signal == PhaseSignal(|p.starts|)
      requires sent == before + Volleys(children, pid, start, p.starts)
      modifies this
      ensures var q := Phase(fate, p, budget);
              && result == q.result && polls == q.polls && now == start + q.elapsed
              && sent == before + Volleys(children, pid, start, q.starts)
    {
      VolleysSnoc(children, pid, start, p.starts, p.elapsed);
      SendAll(children, signal);
      result := WaitWithDeadline(budget);
    }

    /** The three phases; one that decides leaves out the later ones. */
    method RunPhases(children: seq<Pid>, intBudget: real, termBudget: real, killBudget: real) returns (result: Result)
      requires intBudget >= 0.0 && termBudget >= 0.0 && killBudget >= 0.0 && polls == 0
      modifies this
      ensures var p := Phase(fate, Phase(fate, Phase(fate, UNSTARTED, intBudget), termBudget), killBudget);
              && result == p.result && polls == p.polls && now == old(now) + p.elapsed
              && sent == old(sent) + Volleys(children, pid, old(now), p.starts)
    {
      ghost var first := Phase(fate, UNSTARTED, intBudget);
      ghost var second := Phase(fate, first, termBudget);
      assert old(sent) + Volleys(children, pid, now, []) == sent;
      result := RunPhase(children, SIGINT, intBudget, UNSTARTED, now, sent);
      if !result.TimedOut? {
        return;
      }
      result := RunPhase(children, SIGTERM, termBudget, first, old(now), old(sent));
      if !result.TimedOut? {
        return;
      }
      result := RunPhase(children, SIGKILL, killBudget, second, old(now), old(sent));
    }

    /** The helper does exactly what the plan says and sends the volleys of the phases it enters. */
    method GracefulStop(children: seq<Pid>, total: real) returns (result: Result)
      requires total >= 0.0 && polls == 0
      modifies this
      ensures var p := StopPlan(fate, total);
              && result == p.result && polls == p.polls && now == old(now) + p.elapsed
              && sent == old(sent) + Volleys(children, pid, old(now), p.starts)
      ensures var signals := sent[|old(sent)|..];
              forall i :: 0 <= i < |signals| ==> RightlySent(signals, i, old(now), total)
    {
      BudgetsSum(total);
      EverySignalIsRightlySent(fate, total, children, pid, now);
      var intBudget := IntBudget(total);
      var termBudget := TermBudget(total);
      result := RunPhases(children, intBudget, termBudget, total - intBudget - termBudget);
      if result.TimedOut? {
        result := TryWait();
      }
    }
  }
}
