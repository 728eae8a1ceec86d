/**
 Reference-counted holds on suspended processes. Each successful suspend opens a
 generation; its delayed verdicts share it through tokens.
 */
module Suspensions {
  import opened Net

  const SYSTEM := 4
  const MAX_PID := 0xffff_ffff
  const WRAP := 0x1_0000_0000_0000_0000

  datatype Entry = Entry(pid: nat, handle: nat, pending: nat)

  /** What the backend does with a suspend: it may also throw. */
  datatype Suspend = Suspended(handle: nat) | Refused | Threw

  datatype Acquired = Token(generation: nat) | Denied | Thrown

  ghost function Handles(entries: map<nat, Entry>): set<nat> {
    set g | g in entries :: entries[g].handle
  }

  /** Handles are not shared between generations. */
  ghost predicate OwnHandles(entries: map<nat, Entry>) {
    forall g, h :: g in entries && h in entries && entries[g].handle == entries[h].handle ==> g == h
  }

  /** A PID points to a retained generation of that very process. */
  ghost predicate CurrentOk(entries: map<nat, Entry>, current: map<nat, nat>) {
    forall p :: p in current ==> current[p] in entries && entries[current[p]].pid == p
  }

  /** Generations are numbered from one and not reused; zero says that no number is left. */
  ghost predicate NumbersOk(entries: map<nat, Entry>, next: nat) {
    next < WRAP && forall g :: g in entries ==> 1 <= g < WRAP && (next != 0 ==> g < next)
  }

  /** An entry counts the tokens that are still out, and only issued numbers are out. */
  ghost predicate TokensOk(entries: map<nat, Entry>, tokens: multiset<nat>, next: nat) {
    && (forall g :: g in entries ==> entries[g].pending == tokens[g])
    && (forall t :: t in tokens ==> 1 <= t < WRAP && (next != 0 ==> t < next))
  }

  /** Successful suspends and resumes, handles closed, the handles that are open, and the tokens that are out. */
  datatype Ledger = Ledger(suspends: nat, resumes: nat, closes: nat, open: set<nat>, tokens: multiset<nat>)

  datatype Holds = Holds(entries: map<nat, Entry>, current: map<nat, nat>, next: nat, stopping: bool, ledger: Ledger)

  const START := Holds(map[], map[], 1, false, Ledger(0, 0, 0, {}, multiset{}))

  /** The books balance: what was suspended and not resumed is what is retained, and so are the open handles. */
  ghost predicate Balanced(h: Holds) {
    && h.ledger.suspends == h.ledger.resumes + |h.entries| && h.ledger.closes == h.ledger.resumes
    && h.ledger.open == Handles(h.entries) && OwnHandles(h.entries)
    && CurrentOk(h.entries, h.current) && NumbersOk(h.entries, h.next) && TokensOk(h.entries, h.ledger.tokens, h.next)
  }

  // ---- the operations on values -----------------------------------------------------------------

  /** Starts a generation for a process that has no live one; zero means that the numbers have run out. */
  function DoBegin(h: Holds, pid: nat, outcome: Suspend): (Holds, Acquired) {
    if h.next == 0 then (h, Denied)
    else
      var t := h.(next := (h.next + 1) % WRAP);
      match outcome
      case Threw => (t, Thrown)
      case Refused => (t, Denied)
      case Suspended(handle) => (Begun(h, pid, handle), Token(h.next))
  }

  /** A new generation with its first token. */
  function Begun(h: Holds, pid: nat, handle: nat): Holds {
    Holds(h.entries[h.next := Entry(pid, handle, 1)], h.current[pid := h.next], (h.next + 1) % WRAP, h.stopping,
          h.ledger.(suspends := h.ledger.suspends + 1, open := h.ledger.open + {handle},
                    tokens := h.ledger.tokens + multiset{h.next}))
  }

  function Share(h: Holds, g: nat): Holds
    requires g in h.entries
  {
    h.(entries := h.entries[g := h.entries[g].(pending := h.entries[g].pending + 1)],
       ledger := h.ledger.(tokens := h.ledger.tokens + multiset{g}))
  }

  predicate Excluded(self: nat, pid: nat) {
    pid == 0 || pid == SYSTEM || pid > MAX_PID || pid == self
  }

  /** Shares the live generation of a process, or starts one; an exited process keeps its own generation. */
  function DoAcquire(h: Holds, self: nat, pid: nat, alive: bool, outcome: Suspend): (Holds, Acquired) {
    if Excluded(self, pid) || h.stopping then (h, Denied)
    else if pid in h.current && h.current[pid] in h.entries && alive
    then (Share(h, h.current[pid]), Token(h.current[pid]))
    else DoBegin(h.(current := h.current - {pid}), pid, outcome)
  }

  function Lowered(e: Entry): Entry {
    if e.pending > 0 then e.(pending := e.pending - 1) else e
  }

  /** One token less, nothing resumed yet. */
  function Lower(h: Holds, g: nat): Holds {
    h.(entries := if g in h.entries then h.entries[g := Lowered(h.entries[g])] else h.entries,
       ledger := h.ledger.(tokens := h.ledger.tokens - multiset{g}))
  }

  function Forget(current: map<nat, nat>, pid: nat, generation: nat): map<nat, nat> {
    if pid in current && current[pid] == generation then current - {pid} else current
  }

  /** A successful resume: the handle is closed and the generation forgotten. */
  function Resume(h: Holds, g: nat): Holds
    requires g in h.entries
  {
    h.(entries := h.entries - {g}, current := Forget(h.current, h.entries[g].pid, g),
       ledger := h.ledger.(resumes := h.ledger.resumes + 1, closes := h.ledger.closes + 1,
                           open := h.ledger.open - {h.entries[g].handle}))
  }

  /** The state, whether the call succeeded, and whether it resumed the process. */
  function DoRelease(h: Holds, g: nat, works: bool): (Holds, bool, bool) {
    var t := Lower(h, g);
    if g !in t.entries || t.entries[g].pending != 0 then (t, true, false)
    else if works then (Resume(t, g), true, true)
    else (t, false, false)
  }

  lemma RemoveEntry(entries: map<nat, Entry>, current: map<nat, nat>, g: nat)
    requires g in entries && OwnHandles(entries) && CurrentOk(entries, current)
    ensures var less := entries - {g};
            && |less| == |entries| - 1 && OwnHandles(less)
            && Handles(less) == Handles(entries) - {entries[g].handle}
            && CurrentOk(less, Forget(current, entries[g].pid, g))
  {
    var less := entries - {g};
    assert less.Keys == entries.Keys - {g};
    assert |less| == |less.Keys| && |entries| == |entries.Keys|;
    forall h | h in Handles(entries) - {entries[g].handle} ensures h in Handles(less) {
      var k :| k in entries && entries[k].handle == h;
      assert k in less;
    }
  }

  lemma AddEntry(entries: map<nat, Entry>, g: nat, e: Entry)
    requires g !in entries && OwnHandles(entries) && e.handle !in Handles(entries)
    ensures var more := entries[g := e];
            |more| == |entries| + 1 && OwnHandles(more) && Handles(more) == Handles(entries) + {e.handle}
  {
    var more := entries[g := e];
    assert more.Keys == entries.Keys + {g};
    assert |more| == |more.Keys| && |entries| == |entries.Keys|;
    assert more[g].handle in Handles(more);
    forall h | h in Handles(entries) ensures h in Handles(more) {
      var k :| k in entries && entries[k].handle == h;
      assert more[k].handle == h;
    }
    forall a, b | a in more && b in more && more[a].handle == more[b].handle ensures a == b {
      assert a != g ==> more[a].handle in Handles(entries);
      assert b != g ==> more[b].handle in Handles(entries);
    }
  }

  lemma KeepEntry(entries: map<nat, Entry>, current: map<nat, nat>, g: nat, pending: nat)
    requires g in entries && OwnHandles(entries) && CurrentOk(entries, current)
    ensures var same := entries[g := entries[g].(pending := pending)];
            && |same| == |entries| && OwnHandles(same) && Handles(same) == Handles(entries) && CurrentOk(same, current)
  {
    var same := entries[g := entries[g].(pending := pending)];
    assert same.Keys == entries.Keys;
    assert |same| == |same.Keys| && |entries| == |entries.Keys|;
    assert forall k :: k in entries ==> same[k].handle == entries[k].handle;
  }

  // ---- the books balance in every run --------------------------------------------------------------

  lemma ShareBalanced(h: Holds, g: nat)
    requires Balanced(h) && g in h.entries
    ensures Balanced(Share(h, g))
  {
    KeepEntry(h.entries, h.current, g, h.entries[g].pending + 1);
  }

  lemma SkipBalanced(h: Holds)
    requires Balanced(h) && h.next != 0
    ensures Balanced(h.(next := (h.next + 1) % WRAP))
  {
  }

  lemma FirstToken(entries: map<nat, Entry>, current: map<nat, nat>, next: nat, tokens: multiset<nat>, pid: nat,
                   handle: nat)
    requires CurrentOk(entries, current) && NumbersOk(entries, next) && TokensOk(entries, tokens, next)
    requires next != 0 && pid !in current
    ensures var more := entries[next := Entry(pid, handle, 1)];
            && CurrentOk(more, current[pid := next]) && NumbersOk(more, (next + 1) % WRAP)
            && TokensOk(more, tokens + multiset{next}, (next + 1) % WRAP)
  {
    assert next !in tokens && next !in entries;
  }

  lemma BeginBalanced(h: Holds, pid: nat, outcome: Suspend)
    requires Balanced(h) && pid !in h.current && (outcome.Suspended? ==> outcome.handle !in h.ledger.open)
    ensures Balanced(DoBegin(h, pid, outcome).0)
  {
    if h.next != 0 {
      SkipBalanced(h);
      if outcome.Suspended? {
        BegunBalanced(h, pid, outcome.handle);
      }
    }
  }

  lemma BegunBalanced(h: Holds, pid: nat, handle: nat)
    requires Balanced(h) && h.next != 0 && pid !in h.current && handle !in h.ledger.open
    ensures Balanced(Begun(h, pid, handle))
  {
    assert h.next !in h.entries;
    AddEntry(h.entries, h.next, Entry(pid, handle, 1));
    FirstToken(h.entries, h.current, h.next, h.ledger.tokens, pid, handle);
  }

  lemma LowerBalanced(h: Holds, g: nat)
    requires Balanced(h)
    ensures Balanced(Lower(h, g))
  {
    if g in h.entries { KeepEntry(h.entries, h.current, g, Lowered(h.entries[g]).pending); }
  }

  lemma ResumeBalanced(h: Holds, g: nat)
    requires Balanced(h) && g in h.entries
    ensures h.entries[g].handle in h.ledger.open && Balanced(Resume(h, g))
  {
    RemoveEntry(h.entries, h.current, g);
  }

  lemma AcquireBalanced(h: Holds, self: nat, pid: nat, alive: bool, outcome: Suspend)
    requires Balanced(h) && (outcome.Suspended? ==> outcome.handle !in h.ledger.open)
    ensures Balanced(DoAcquire(h, self, pid, alive, outcome).0)
  {
    if pid in h.current && alive {
      ShareBalanced(h, h.current[pid]);
    } else {
      BeginBalanced(h.(current := h.current - {pid}), pid, outcome);
    }
  }

  datatype Op =
    | OpAcquire(self: nat, pid: nat, alive: bool, outcome: Suspend)
    | OpRelease(generation: nat, works: bool)
    | OpStop
    | OpResume(generation: nat)

  /** The system hands out no handle that is still open. */
  predicate Allowed(h: Holds, op: Op) {
    match op
    case OpAcquire(_, _, _, outcome) => outcome.Suspended? ==> outcome.handle !in h.ledger.open
    case OpResume(g) => g in h.entries
    case _ => true
  }

  function Step(h: Holds, op: Op): Holds {
    match op
    case OpAcquire(self, pid, alive, outcome) => DoAcquire(h, self, pid, alive, outcome).0
    case OpRelease(g, works) => DoRelease(h, g, works).0
    case OpStop => h.(stopping := true)
    case OpResume(g) => if g in h.entries then Resume(h, g) else h
  }

  function RunAll(past: seq<Op>): Holds {
    if past == [] then START else Step(RunAll(past[..|past| - 1]), past[|past| - 1])
  }

  ghost predicate ValidRun(past: seq<Op>) {
    past == [] || (ValidRun(past[..|past| - 1]) && Allowed(RunAll(past[..|past| - 1]), past[|past| - 1]))
  }

  lemma StepBalanced(h: Holds, op: Op)
    requires Balanced(h) && Allowed(h, op)
    ensures Balanced(Step(h, op))
  {
    match op
    case OpAcquire(self, pid, alive, outcome) => AcquireBalanced(h, self, pid, alive, outcome);
    case OpRelease(g, works) =>
      LowerBalanced(h, g);
      if g in h.entries { ResumeBalanced(Lower(h, g), g); }
    case OpStop =>
    case OpResume(g) => ResumeBalanced(h, g);
  }

  /**
   Successful suspends minus successful resumes is the number of retained entries, and exactly
   their handles are open.
   */
  lemma {:induction false} RunBalanced(past: seq<Op>)
    requires ValidRun(past)
    ensures Balanced(RunAll(past))
  {
    if past != [] {
      RunBalanced(past[..|past| - 1]);
      StepBalanced(RunAll(past[..|past| - 1]), past[|past| - 1]);
    }
  }

  lemma RunNext(past: seq<Op>, op: Op)
    requires ValidRun(past) && Allowed(RunAll(past), op)
    ensures ValidRun(past + [op]) && RunAll(past + [op]) == Step(RunAll(past), op)
  {
    assert (past + [op])[..|past|] == past;
  }

  lemma CurrentRetained(past: seq<Op>, pid: nat)
    requires ValidRun(past) && pid in RunAll(past).current
    ensures RunAll(past).current[pid] in RunAll(past).entries
  {
    RunBalanced(past);
  }

  // ---- what tokens mean ------------------------------------------------------------------------------

  /** Only the last token out resumes a generation, and only if that works; no other generation is touched. */
  lemma ReleaseMeaning(h: Holds, g: nat, works: bool)
    requires Balanced(h)
    ensures var (t, ok, resumed) := DoRelease(h, g, works);
            && t.ledger.tokens == h.ledger.tokens - multiset{g} && t.ledger.suspends == h.ledger.suspends
            && (resumed <==> g in h.entries && t.ledger.tokens[g] == 0 && works)
            && (!ok <==> g in h.entries && t.ledger.tokens[g] == 0 && !works)
            && t.ledger.resumes == h.ledger.resumes + (if resumed then 1 else 0)
            && (g in t.entries <==> g in h.entries && !resumed)
            && (forall k :: k != g ==>
                  (k in t.entries <==> k in h.entries) && (k in t.entries ==> t.entries[k] == h.entries[k]))
            && (forall p :: p in h.current && h.current[p] != g ==> p in t.current && t.current[p] == h.current[p])
  {
    LowerBalanced(h, g);
  }

  /**
   When an acquisition gets a token: for a process that may be held, while holds are taken, by
   sharing its live generation or by a suspend that works while numbers are left. A process that
   has exited keeps its generation apart: a new hold on the same PID is a new generation.
   */
  lemma AcquireMeaning(h: Holds, self: nat, pid: nat, alive: bool, outcome: Suspend)
    requires Balanced(h)
    ensures var (t, r) := DoAcquire(h, self, pid, alive, outcome);
            && (r.Token? <==> && pid != 0 && pid != 4 && pid <= 0xffff_ffff && pid != self && !h.stopping
                              && ((pid in h.current && alive) || (h.next != 0 && outcome.Suspended?)))
            && (r.Thrown? <==> && pid != 0 && pid != 4 && pid <= 0xffff_ffff && pid != self && !h.stopping
                               && !(pid in h.current && alive) && h.next != 0 && outcome.Threw?)
            && (!r.Token? ==> t.entries == h.entries && t.ledger == h.ledger)
            && (r.Token? && r.generation !in h.entries ==>
                  && r.generation == h.next && t.entries[r.generation] == Entry(pid, outcome.handle, 1)
                  && t.ledger.open == h.ledger.open + {outcome.handle})
            && (r.Token? && r.generation in h.entries ==>
                  t.entries[r.generation] == h.entries[r.generation].(pending := h.entries[r.generation].pending + 1))
            && (r.Token? ==>
                  && pid in t.current && t.current[pid] == r.generation && r.generation in t.entries
                  && t.ledger.tokens == h.ledger.tokens + multiset{r.generation}
                  && (r.generation in h.entries <==> pid in h.current && alive)
                  && t.ledger.suspends == h.ledger.suspends + (if r.generation in h.entries then 0 else 1)
                  && (forall k :: k in h.entries && k != r.generation ==>
                        k in t.entries && t.entries[k] == h.entries[k]))
  {
  }

  lemma AcquireShares(h: Holds, self: nat, pid: nat, outcome: Suspend)
    requires !Excluded(self, pid) && !h.stopping && pid in h.current && h.current[pid] in h.entries
    ensures DoAcquire(h, self, pid, true, outcome) == (Share(h, h.current[pid]), Token(h.current[pid]))
  {
  }

  lemma AcquireBegins(h: Holds, self: nat, pid: nat, alive: bool, outcome: Suspend)
    requires !Excluded(self, pid) && !h.stopping && !(pid in h.current && alive)
    ensures DoAcquire(h, self, pid, alive, outcome) == DoBegin(h.(current := h.current - {pid}), pid, outcome)
  {
  }

  // ---- the object -------------------------------------------------------------------------------------

  class ProcessSuspensions {
    const self: nat
    var entries: map<nat, Entry>
    var current: map<nat, nat>
    var nextGeneration: nat
    var stopping: bool
    ghost var ledger: Ledger
    ghost var past: seq<Op>

    ghost function View(): Holds
      reads this
    {
      Holds(entries, current, nextGeneration, stopping, ledger)
    }

    /** The object holds what all its operations so far have made. */
    ghost predicate Valid()
      reads this
    {
      ValidRun(past) && View() == RunAll(past)
    }

    constructor (self: nat)
      ensures Valid() && this.self == self && View() == START
    {
      this.self := self;
      entries, current, nextGeneration, stopping := map[], map[], 1, false;
      ledger := Ledger(0, 0, 0, {}, multiset{});
      past := [];
    }

    ghost method Record(h: Holds, op: Op)
      requires ValidRun(past) && h == RunAll(past) && Allowed(h, op)
               && Step(h, op) == View().(ledger := Step(h, op).ledger)
      modifies this`ledger, this`past
      ensures Valid() && View() == Step(h, op)
    {
      RunNext(past, op);
      ledger, past := Step(h, op).ledger, past + [op];
    }

    method Acquire(pid: nat, alive: bool, outcome: Suspend) returns (r: Acquired)
      requires Valid() && (outcome.Suspended? ==> outcome.handle !in ledger.open)
      modifies this
      ensures Valid() && (View(), r) == DoAcquire(old(View()), self, pid, alive, outcome)
    {
      if Excluded(self, pid) || stopping {
        return Denied;
      }
      ghost var op := OpAcquire(self, pid, alive, outcome);
      if pid in current {
        CurrentRetained(past, pid);
        var g := current[pid];
        if alive {
          AcquireShares(View(), self, pid, outcome);
          entries := entries[g := entries[g].(pending := entries[g].pending + 1)];
          Record(old(View()), op);
          return Token(g);
        }
      }
      AcquireBegins(View(), self, pid, alive, outcome);
      current := current - {pid};
      if nextGeneration == 0 {
        Record(old(View()), op);
        return Denied;
      }
      var generation := nextGeneration;
      nextGeneration := (nextGeneration + 1) % WRAP;
      match outcome {
        case Threw => r := Thrown;
        case Refused => r := Denied;
        case Suspended(handle) =>
          entries := entries[generation := Entry(pid, handle, 1)];
          current := current[pid := generation];
          r := Token(generation);
      }
      Record(old(View()), op);
    }

    method Release(generation: nat, works: bool) returns (ok: bool, resumed: bool)
      requires Valid()
      modifies this
      ensures Valid() && (View(), ok, resumed) == DoRelease(old(View()), generation, works)
    {
      ghost var op := OpRelease(generation, works);
      ok, resumed := true, false;
      if generation in entries {
        entries := entries[generation := Lowered(entries[generation])];
        if entries[generation].pending == 0 {
          if works {
            current := Forget(current, entries[generation].pid, generation);
            entries := entries - {generation};
            resumed := true;
          } else {
            ok := false;
          }
        }
      }
      Record(old(View()), op);
    }

    /** Stops acquisitions and resumes every hold; those that cannot be resumed keep their handle for another try. */
    method ResumeAll(works: nat -> bool) returns (ok: bool)
      requires Valid()
      modifies this
      ensures Valid() && stopping && ledger.suspends == old(ledger).suspends && ledger.tokens == old(ledger).tokens
      ensures forall g :: g in entries <==> g in old(entries) && !works(g)
      ensures forall g :: g in entries ==> entries[g] == old(entries)[g]
      ensures ok <==> entries == map[]
    {
      stopping := true;
      Record(old(View()), OpStop);
      ok := true;
      var todo := entries.Keys;
      while todo != {}
        invariant Valid() && stopping && ledger.suspends == old(ledger).suspends && ledger.tokens == old(ledger).tokens
        invariant todo <= entries.Keys
        invariant forall g :: g in entries <==> g in old(entries) && (g in todo || !works(g))
        invariant forall g :: g in entries ==> entries[g] == old(entries)[g]
        invariant ok <==> entries.Keys == todo
      {
        var g :| g in todo;
        if works(g) {
          ghost var before := View();
          current := Forget(current, entries[g].pid, g);
          entries := entries - {g};
          Record(before, OpResume(g));
        } else {
          ok := false;
        }
        todo := todo - {g};
      }
      assert entries.Keys == {} <==> entries == map[];
    }

    /** Destruction: one more attempt, then every handle that is left is closed, each one once. */
    method Destroy(works: nat -> bool)
      requires Valid()
      modifies this
      ensures ledger.open == {} && stopping
      ensures ledger.suspends == old(ledger).suspends && ledger.closes == ledger.suspends
    {
      var ok := ResumeAll(works);
      RunBalanced(past);
      CloseAll();
    }

    /** Closes every handle that is left. */
    method CloseAll()
      requires OwnHandles(entries) && ledger.open == Handles(entries) && ledger.closes + |entries| == ledger.suspends
      modifies this`ledger
      ensures ledger.open == {} && ledger.suspends == old(ledger).suspends && ledger.closes == ledger.suspends
    {
      var todo := entries.Keys;
      assert |entries| == |todo|;
      while todo != {}
        invariant todo <= entries.Keys
        invariant ledger.suspends == old(ledger).suspends && ledger.closes + |todo| == ledger.suspends
        invariant forall h :: h in ledger.open <==> exists g :: g in todo && entries[g].handle == h
      {
        var g :| g in todo;
        assert entries[g].handle in ledger.open;
        ledger := ledger.(closes := ledger.closes + 1, open := ledger.open - {entries[g].handle});
        todo := todo - {g};
      }
    }
  }
}
