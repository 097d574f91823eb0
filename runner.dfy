/**
 * The migration runner: `RunUp` walks the registrations forwards and
 * `RunDown` backwards. What they do is recorded as a trace: the progress
 * lines they print and the calls of each registration's `Up` or `Down`,
 * which stay opaque events.
 */
module Runner {

  /** A registered migration; only its name reaches the trace. */
  datatype Registration = Registration(name: string)

  /** The empty schema value every call receives. */
  datatype Schema = Schema

  /** A printed line, or a call of registration `index`'s `Up` or `Down`. */
  datatype Event = Line(text: string) | Up(index: nat, schema: Schema) | Down(index: nat, schema: Schema)

  const UpDone: string := "All migrations completed successfully"
  const DownDone: string := "All rollbacks completed successfully"

  /** What the forward walk does for registration `k`. */
  function UpStep(regs: seq<Registration>, k: nat): seq<Event>
    requires k < |regs|
  {
    [Line("Running migration: " + regs[k].name + " (up)"), Up(k, Schema), Line("Completed migration: " + regs[k].name)]
  }

  /** The forward walk over the first `n` registrations. */
  function UpSteps(regs: seq<Registration>, n: nat): seq<Event>
    requires n <= |regs|
  {
    if n == 0 then [] else UpSteps(regs, n - 1) + UpStep(regs, n - 1)
  }

  function UpTrace(regs: seq<Registration>): seq<Event> {
    UpSteps(regs, |regs|) + [Line(UpDone)]
  }

  /** What the backward walk does for registration `k`. */
  function DownStep(regs: seq<Registration>, k: nat): seq<Event>
    requires k < |regs|
  {
    [Line("Rolling back migration: " + regs[k].name + " (down)"), Down(k, Schema), Line("Completed rollback: " + regs[k].name)]
  }

  /** The first `n` steps of the backward walk: registrations `|regs| - 1` down to `|regs| - n`. */
  function DownSteps(regs: seq<Registration>, n: nat): seq<Event>
    requires n <= |regs|
  {
    if n == 0 then [] else DownSteps(regs, n - 1) + DownStep(regs, |regs| - n)
  }

  function DownTrace(regs: seq<Registration>): seq<Event> {
    DownSteps(regs, |regs|) + [Line(DownDone)]
  }

  /** `RunUp`. */
  method RunUp(regs: seq<Registration>) returns (trace: seq<Event>)
    ensures trace == UpTrace(regs)
  {
    trace := [];
    for i := 0 to |regs|
      invariant trace == UpSteps(regs, i)
    {
      var reg := regs[i];
      trace := trace + [Line("Running migration: " + reg.name + " (up)")];
      var schema := Schema;
      trace := trace + [Up(i, schema)];
      trace := trace + [Line("Completed migration: " + reg.name)];
    }
    trace := trace + [Line(UpDone)];
  }

  /** `RunDown`. */
  method RunDown(regs: seq<Registration>) returns (trace: seq<Event>)
    ensures trace == DownTrace(regs)
  {
    trace := [];
    var i := |regs| - 1;
    while i >= 0
      invariant -1 <= i < |regs|
      invariant trace == DownSteps(regs, |regs| - 1 - i)
      decreases i + 1
    {
      var reg := regs[i];
      trace := trace + [Line("Rolling back migration: " + reg.name + " (down)")];
      var schema := Schema;
      trace := trace + [Down(i, schema)];
      trace := trace + [Line("Completed rollback: " + reg.name)];
      i := i - 1;
    }
    trace := trace + [Line(DownDone)];
  }

  /** The calls in a trace, in order. */
  function Calls(t: seq<Event>): seq<Event> {
    if t == [] then []
    else if t[|t| - 1].Line? then Calls(t[..|t| - 1])
    else Calls(t[..|t| - 1]) + [t[|t| - 1]]
  }

  /** The printed lines of a trace, in order. */
  function Printed(t: seq<Event>): seq<string> {
    if t == [] then []
    else if t[|t| - 1].Line? then Printed(t[..|t| - 1]) + [t[|t| - 1].text]
    else Printed(t[..|t| - 1])
  }

  lemma {:induction false} CallsAppend(a: seq<Event>, b: seq<Event>)
    ensures Calls(a + b) == Calls(a) + Calls(b)
    decreases |b|
  {
    if b == [] {
      assert a + b == a;
    } else {
      var b' := b[..|b| - 1];
      assert (a + b)[..|a + b| - 1] == a + b';
      assert (a + b)[|a + b| - 1] == b[|b| - 1];
      CallsAppend(a, b');
    }
  }

  lemma {:induction false} PrintedAppend(a: seq<Event>, b: seq<Event>)
    ensures Printed(a + b) == Printed(a) + Printed(b)
    decreases |b|
  {
    if b == [] {
      assert a + b == a;
    } else {
      var b' := b[..|b| - 1];
      assert (a + b)[..|a + b| - 1] == a + b';
      assert (a + b)[|a + b| - 1] == b[|b| - 1];
      PrintedAppend(a, b');
    }
  }

  /** A line, a call and a line: one call, two lines. */
  lemma StepParts(l1: string, e: Event, l2: string)
    requires !e.Line?
    ensures Calls([Line(l1), e, Line(l2)]) == [e]
    ensures Printed([Line(l1), e, Line(l2)]) == [l1, l2]
  {
    var t := [Line(l1), e, Line(l2)];
    var t2, t1 := [Line(l1), e], [Line(l1)];
    assert t[..2] == t2 && t2[..1] == t1 && t1[..0] == [];
    assert Printed(t1) == Printed(t1[..0]) + [l1];
    assert Calls(t1) == [] && Printed(t1) == [l1];
    assert Calls(t2) == [e] && Printed(t2) == [l1];
  }

  /** The forward walk over `n` registrations calls `Up` on 0 .. n-1, in that order. */
  lemma {:induction false} UpStepsCalls(regs: seq<Registration>, n: nat)
    requires n <= |regs|
    ensures Calls(UpSteps(regs, n)) == seq(n, k requires 0 <= k < n => Up(k, Schema))
  {
    if n > 0 {
      UpStepsCalls(regs, n - 1);
      CallsAppend(UpSteps(regs, n - 1), UpStep(regs, n - 1));
      StepParts("Running migration: " + regs[n - 1].name + " (up)", Up(n - 1, Schema), "Completed migration: " + regs[n - 1].name);
    }
  }

  /** The forward walk over `n` registrations prints a start and a completion line for each. */
  lemma {:induction false} UpStepsPrinted(regs: seq<Registration>, n: nat)
    requires n <= |regs|
    ensures |Printed(UpSteps(regs, n))| == 2 * n
    ensures forall k :: 0 <= k < n ==> Printed(UpSteps(regs, n))[2 * k] == "Running migration: " + regs[k].name + " (up)"
    ensures forall k :: 0 <= k < n ==> Printed(UpSteps(regs, n))[2 * k + 1] == "Completed migration: " + regs[k].name
  {
    if n > 0 {
      var l1, l2 := "Running migration: " + regs[n - 1].name + " (up)", "Completed migration: " + regs[n - 1].name;
      UpStepsPrinted(regs, n - 1);
      PrintedAppend(UpSteps(regs, n - 1), UpStep(regs, n - 1));
      StepParts(l1, Up(n - 1, Schema), l2);
    }
  }

  /** The backward walk's first `n` steps call `Down` on |regs|-1 down to |regs|-n. */
  lemma {:induction false} DownStepsCalls(regs: seq<Registration>, n: nat)
    requires n <= |regs|
    ensures Calls(DownSteps(regs, n)) == seq(n, j requires 0 <= j < n => Down(|regs| - 1 - j, Schema))
  {
    if n > 0 {
      var k := |regs| - n;
      DownStepsCalls(regs, n - 1);
      CallsAppend(DownSteps(regs, n - 1), DownStep(regs, k));
      StepParts("Rolling back migration: " + regs[k].name + " (down)", Down(k, Schema), "Completed rollback: " + regs[k].name);
    }
  }

  /** The backward walk's first `n` steps print a start and a completion line for each. */
  lemma {:induction false} DownStepsPrinted(regs: seq<Registration>, n: nat)
    requires n <= |regs|
    ensures |Printed(DownSteps(regs, n))| == 2 * n
    ensures forall j :: 0 <= j < n ==>
      Printed(DownSteps(regs, n))[2 * j] == "Rolling back migration: " + regs[|regs| - 1 - j].name + " (down)"
    ensures forall j :: 0 <= j < n ==>
      Printed(DownSteps(regs, n))[2 * j + 1] == "Completed rollback: " + regs[|regs| - 1 - j].name
  {
    if n > 0 {
      var k := |regs| - n;
      var l1, l2 := "Rolling back migration: " + regs[k].name + " (down)", "Completed rollback: " + regs[k].name;
      DownStepsPrinted(regs, n - 1);
      PrintedAppend(DownSteps(regs, n - 1), DownStep(regs, k));
      StepParts(l1, Down(k, Schema), l2);
    }
  }

  /** `RunUp` calls `Up` on every registration exactly once, by increasing index, and never `Down`. */
  lemma UpTraceCalls(regs: seq<Registration>)
    ensures Calls(UpTrace(regs)) == seq(|regs|, k requires 0 <= k < |regs| => Up(k, Schema))
  {
    UpStepsCalls(regs, |regs|);
    CallsAppend(UpSteps(regs, |regs|), [Line(UpDone)]);
    assert [Line(UpDone)][..0] == [];
  }

  /** `RunDown` calls `Down` on every registration exactly once, by decreasing index, and never `Up`. */
  lemma DownTraceCalls(regs: seq<Registration>)
    ensures Calls(DownTrace(regs)) == seq(|regs|, j requires 0 <= j < |regs| => Down(|regs| - 1 - j, Schema))
  {
    DownStepsCalls(regs, |regs|);
    CallsAppend(DownSteps(regs, |regs|), [Line(DownDone)]);
    assert [Line(DownDone)][..0] == [];
  }

  /** `RunDown` visits the registrations in the reverse of `RunUp`'s order. */
  lemma DownReversesUp(regs: seq<Registration>)
    ensures |Calls(DownTrace(regs))| == |Calls(UpTrace(regs))| == |regs|
    ensures forall j :: 0 <= j < |regs| ==>
      Calls(DownTrace(regs))[j].Down? && Calls(UpTrace(regs))[|regs| - 1 - j].Up? &&
      Calls(DownTrace(regs))[j].index == Calls(UpTrace(regs))[|regs| - 1 - j].index
  {
    UpTraceCalls(regs);
    DownTraceCalls(regs);
  }

  /** `RunUp` prints 2n+1 lines: start and completion per registration, then the success line. */
  lemma UpTracePrinted(regs: seq<Registration>)
    ensures |Printed(UpTrace(regs))| == 2 * |regs| + 1
    ensures forall k :: 0 <= k < |regs| ==> Printed(UpTrace(regs))[2 * k] == "Running migration: " + regs[k].name + " (up)"
    ensures forall k :: 0 <= k < |regs| ==> Printed(UpTrace(regs))[2 * k + 1] == "Completed migration: " + regs[k].name
    ensures Printed(UpTrace(regs))[2 * |regs|] == UpDone
  {
    UpStepsPrinted(regs, |regs|);
    PrintedAppend(UpSteps(regs, |regs|), [Line(UpDone)]);
    assert [Line(UpDone)][..0] == [];
  }

  /** `RunDown` prints 2n+1 lines: start and completion per registration from the last, then the success line. */
  lemma DownTracePrinted(regs: seq<Registration>)
    ensures |Printed(DownTrace(regs))| == 2 * |regs| + 1
    ensures forall j :: 0 <= j < |regs| ==>
      Printed(DownTrace(regs))[2 * j] == "Rolling back migration: " + regs[|regs| - 1 - j].name + " (down)"
    ensures forall j :: 0 <= j < |regs| ==>
      Printed(DownTrace(regs))[2 * j + 1] == "Completed rollback: " + regs[|regs| - 1 - j].name
    ensures Printed(DownTrace(regs))[2 * |regs|] == DownDone
  {
    DownStepsPrinted(regs, |regs|);
    PrintedAppend(DownSteps(regs, |regs|), [Line(DownDone)]);
    assert [Line(DownDone)][..0] == [];
  }

  /** With nothing registered, the backward walk only prints its success line. */
  lemma EmptyDownTrace()
    ensures DownTrace([]) == [Line(DownDone)]
  {
  }
}
