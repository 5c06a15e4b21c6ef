/** Run ids, task ids and the prefix test the janitor uses to recognise a live run's tasks. */
module CollabIds {
  /** The two generators: the HTTP handler's clock-and-sequence id, and the IPC handler's id
      around whatever task id the caller supplied. */
  datatype RunId = HttpRun(nano: int, number: nat) | IpcRun(taskId: string, number: nat)

  function Digit(d: nat): char
    requires d < 10
  {
    "0123456789"[d]
  }

  function Decimal(n: nat): string {
    if n < 10 then [Digit(n)] else Decimal(n / 10) + [Digit(n % 10)]
  }

  function SignedDecimal(n: int): string {
    if n < 0 then "-" + Decimal(-n) else Decimal(n)
  }

  function Render(r: RunId): string {
    match r
    case HttpRun(nano, number) => "g" + (SignedDecimal(nano) + ("-" + Decimal(number)))
    case IpcRun(taskId, number) => "ipc-" + (taskId + ("-" + Decimal(number)))
  }

  function Prefix(r: RunId): string {
    "collab-" + (Render(r) + "-")
  }

  function TaskId(r: RunId, node: string): string {
    "collab-" + (Render(r) + ("-" + node))
  }

  /** The IPC handler submits a single node, always called "exec"; HTTP callers choose freely. */
  predicate Submits(r: RunId, node: string) {
    r.IpcRun? ==> node == "exec"
  }

  /** What isProtectedByActiveRun tests for one active run. */
  predicate Protects(r: RunId, id: string) {
    Prefix(r) <= id
  }

  /** What the ids look like. */
  lemma HttpNames()
    ensures TaskId(HttpRun(170, 12), "a") == "collab-g170-12-a" && Prefix(HttpRun(170, 12)) == "collab-g170-12-"
    ensures TaskId(HttpRun(-5, 3), "b-1") == "collab-g-5-3-b-1"
  {
    assert Decimal(17) == "17" && Decimal(170) == "170" && Decimal(12) == "12";
  }

  lemma IpcNames()
    ensures TaskId(IpcRun("job", 40), "exec") == "collab-ipc-job-40-exec"
    ensures Prefix(IpcRun("job", 40)) == "collab-ipc-job-40-"
  {
    assert Decimal(40) == "40";
  }

  // ---- decimal numerals ------------------------------------------------------------------

  predicate Digits(s: string) {
    forall i :: 0 <= i < |s| ==> '0' <= s[i] <= '9'
  }

  lemma DigitRange(d: nat)
    requires d < 10
    ensures '0' <= Digit(d) <= '9' && Digit(d) as int - '0' as int == d
  {
  }

  lemma {:induction false} DecimalDigits(n: nat)
    ensures Digits(Decimal(n)) && |Decimal(n)| >= 1
    decreases n
  {
    if n < 10 {
      DigitRange(n);
    } else {
      DecimalDigits(n / 10);
      DigitRange(n % 10);
    }
  }

  lemma {:induction false} DecimalInjective(m: nat, n: nat)
    requires Decimal(m) == Decimal(n)
    ensures m == n
    decreases m
  {
    var s, t := Decimal(m), Decimal(n);
    DigitRange(m % 10);
    DigitRange(n % 10);
    DecimalLength(m);
    DecimalLength(n);
    assert s[|s| - 1] == Digit(m % 10) && t[|t| - 1] == Digit(n % 10);
    if m >= 10 && n >= 10 {
      assert Decimal(m / 10) == s[..|s| - 1] == t[..|t| - 1] == Decimal(n / 10);
      DecimalInjective(m / 10, n / 10);
    }
  }

  lemma DecimalLength(n: nat)
    ensures |Decimal(n)| >= 1 && (|Decimal(n)| == 1 <==> n < 10)
  {
    if n >= 10 {
      DecimalDigits(n / 10);
    }
  }

  // ---- strings -----------------------------------------------------------------------------

  lemma Regroup(a: string, b: string, c: string)
    ensures (a + b) + c == a + (b + c)
  {
  }

  lemma CancelLeft(p: string, x: string, y: string)
    ensures p + x == p + y ==> x == y
    ensures p + x <= p + y <==> x <= y
  {
    assert (p + x)[|p|..] == x && (p + y)[|p|..] == y;
    if p + x <= p + y {
      assert y[..|x|] == (p + y)[..|p + x|][|p|..];
    }
    if x <= y {
      assert (p + y)[..|p + x|] == p + y[..|x|];
    }
  }

  lemma CancelRight(x: string, y: string, p: string)
    requires x + p == y + p
    ensures x == y
  {
    assert |x| == |y|;
    assert (x + p)[..|x|] == x && (y + p)[..|y|] == y;
  }

  /** A numeral ends at the first dash after it. */
  lemma NumeralEnds(d: string, x: string, e: string, y: string)
    requires Digits(d) && Digits(e) && d + ("-" + x) == e + ("-" + y)
    ensures d == e && x == y
  {
    var s := d + ("-" + x);
    assert s[|d|] == '-' && s[|e|] == '-';
    assert forall i :: 0 <= i < |d| ==> s[i] == d[i];
    assert forall i :: 0 <= i < |e| ==> s[i] == e[i];
    assert |d| == |e|;
    assert d == s[..|d|] == e && x == s[|d| + 1..] == y;
  }

  /** A numeral starts after the last dash before it. */
  lemma NumeralStarts(x: string, d: string, y: string, e: string)
    requires Digits(d) && Digits(e) && x + ("-" + d) == y + ("-" + e)
    ensures x == y && d == e
  {
    var s := x + ("-" + d);
    assert s[|x|] == '-' && s[|y|] == '-';
    assert forall i :: |x| < i < |s| ==> s[i] == d[i - |x| - 1];
    assert forall i :: |y| < i < |s| ==> s[i] == e[i - |y| - 1];
    assert |x| == |y|;
    assert x == s[..|x|] == y && d == s[|x| + 1..] == e;
  }

  lemma SignedEnds(m: int, x: string, n: int, y: string)
    requires SignedDecimal(m) + ("-" + x) == SignedDecimal(n) + ("-" + y)
    ensures m == n && x == y
  {
    var a, b := if m < 0 then -m else m, if n < 0 then -n else n;
    DecimalDigits(a);
    DecimalDigits(b);
    Regroup("-", Decimal(a), "-" + x);
    Regroup("-", Decimal(b), "-" + y);
    assert m < 0 <==> (SignedDecimal(m) + ("-" + x))[0] == '-';
    assert n < 0 <==> (SignedDecimal(n) + ("-" + y))[0] == '-';
    CancelLeft("-", Decimal(a) + ("-" + x), Decimal(b) + ("-" + y));
    NumeralEnds(Decimal(a), x, Decimal(b), y);
    DecimalInjective(a, b);
  }

  // ---- task ids ----------------------------------------------------------------------------

  function HttpTail(r: RunId, node: string): string
    requires r.HttpRun?
  {
    SignedDecimal(r.nano) + ("-" + (Decimal(r.number) + ("-" + node)))
  }

  lemma HttpShape(r: RunId, node: string)
    requires r.HttpRun?
    ensures TaskId(r, node) == "collab-" + ("g" + HttpTail(r, node))
  {
    var a, b := SignedDecimal(r.nano), Decimal(r.number);
    Regroup("g", a + ("-" + b), "-" + node);
    Regroup(a, "-" + b, "-" + node);
    Regroup("-", b, "-" + node);
  }

  function IpcTail(r: RunId, node: string): string
    requires r.IpcRun?
  {
    r.taskId + ("-" + (Decimal(r.number) + ("-" + node)))
  }

  lemma IpcShape(r: RunId, node: string)
    requires r.IpcRun?
    ensures TaskId(r, node) == "collab-" + ("ipc-" + IpcTail(r, node))
  {
    var b := Decimal(r.number);
    Regroup("ipc-", r.taskId + ("-" + b), "-" + node);
    Regroup(r.taskId, "-" + b, "-" + node);
    Regroup("-", b, "-" + node);
  }

  lemma HttpInjective(r: RunId, node: string, q: RunId, other: string)
    requires r.HttpRun? && q.HttpRun? && TaskId(r, node) == TaskId(q, other)
    ensures r == q && node == other
  {
    HttpShape(r, node);
    HttpShape(q, other);
    CancelLeft("collab-", "g" + HttpTail(r, node), "g" + HttpTail(q, other));
    CancelLeft("g", HttpTail(r, node), HttpTail(q, other));
    SignedEnds(r.nano, Decimal(r.number) + ("-" + node), q.nano, Decimal(q.number) + ("-" + other));
    DecimalDigits(r.number);
    DecimalDigits(q.number);
    NumeralEnds(Decimal(r.number), node, Decimal(q.number), other);
    DecimalInjective(r.number, q.number);
  }

  lemma IpcInjective(r: RunId, q: RunId, node: string)
    requires r.IpcRun? && q.IpcRun? && TaskId(r, node) == TaskId(q, node)
    ensures r == q
  {
    IpcShape(r, node);
    IpcShape(q, node);
    CancelLeft("collab-", "ipc-" + IpcTail(r, node), "ipc-" + IpcTail(q, node));
    CancelLeft("ipc-", IpcTail(r, node), IpcTail(q, node));
    var a, b := Decimal(r.number), Decimal(q.number);
    Regroup("-", a, "-" + node);
    Regroup("-", b, "-" + node);
    Regroup(r.taskId, "-" + a, "-" + node);
    Regroup(q.taskId, "-" + b, "-" + node);
    CancelRight(r.taskId + ("-" + a), q.taskId + ("-" + b), "-" + node);
    DecimalDigits(r.number);
    DecimalDigits(q.number);
    NumeralStarts(r.taskId, a, q.taskId, b);
    DecimalInjective(r.number, q.number);
  }

  /** The generators never produce the same beginning. */
  lemma GeneratorsApart(x: string, y: string)
    ensures "collab-" + ("g" + x) != "collab-" + ("ipc-" + y)
    ensures !("collab-" + ("g" + x) <= "collab-" + ("ipc-" + y))
    ensures !("collab-" + ("ipc-" + x) <= "collab-" + ("g" + y))
  {
    assert ("g" + x)[0] == 'g' && ("ipc-" + y)[0] == 'i' && ("ipc-" + x)[0] == 'i' && ("g" + y)[0] == 'g';
    CancelLeft("collab-", "g" + x, "ipc-" + y);
    CancelLeft("collab-", "ipc-" + x, "g" + y);
  }

  /** The map from (run, node) to task id is injective over both generators, for arbitrary
      HTTP node ids and arbitrary IPC caller task ids. */
  lemma TaskIdInjective(r: RunId, node: string, q: RunId, other: string)
    requires Submits(r, node) && Submits(q, other) && TaskId(r, node) == TaskId(q, other)
    ensures r == q && node == other
  {
    if r.HttpRun? && q.HttpRun? {
      HttpInjective(r, node, q, other);
    } else if r.IpcRun? && q.IpcRun? {
      IpcInjective(r, q, node);
    } else if r.HttpRun? {
      HttpShape(r, node);
      IpcShape(q, other);
      GeneratorsApart(HttpTail(r, node), IpcTail(q, other));
    } else {
      IpcShape(r, node);
      HttpShape(q, other);
      GeneratorsApart(HttpTail(q, other), IpcTail(r, node));
    }
  }

  // ---- the prefix test -----------------------------------------------------------------------

  /** A run's prefix is its task id for the empty node, and continues to each of its task ids. */
  lemma PrefixExtends(r: RunId, node: string)
    ensures Prefix(r) + node == TaskId(r, node) && Prefix(r) == TaskId(r, "")
  {
    Regroup("collab-", Render(r) + "-", node);
    Regroup(Render(r), "-", node);
    assert "-" + "" == "-";
  }

  /** A run protects its own tasks. */
  lemma ProtectsOwn(r: RunId, node: string)
    ensures Protects(r, TaskId(r, node))
  {
    PrefixExtends(r, node);
  }

  /** Whatever a run protects could be a task of its own, for some node. */
  lemma ProtectedContinues(r: RunId, id: string) returns (rest: string)
    requires Protects(r, id)
    ensures id == TaskId(r, rest)
  {
    rest := id[|Prefix(r)|..];
    assert id == Prefix(r) + rest;
    PrefixExtends(r, rest);
  }

  /** An HTTP run protects its own tasks only. */
  lemma HttpProtectsExactly(r: RunId, q: RunId, node: string)
    requires r.HttpRun? && Submits(q, node)
    ensures Protects(r, TaskId(q, node)) <==> q == r
  {
    if q == r {
      ProtectsOwn(r, node);
    } else if Protects(r, TaskId(q, node)) {
      var rest := ProtectedContinues(r, TaskId(q, node));
      TaskIdInjective(r, rest, q, node);
    }
  }

  /** An IPC run also protects the task of any run whose caller-supplied task id continues
      its own name: the test is a prefix test. That is the only way it errs. */
  lemma IpcProtectsExactly(r: RunId, q: RunId, node: string)
    requires r.IpcRun? && Submits(q, node)
    ensures Protects(r, TaskId(q, node)) <==>
            q == r || (q.IpcRun? && r.taskId + ("-" + (Decimal(r.number) + "-")) <= q.taskId + "-")
  {
    PrefixExtends(r, "");
    IpcShape(r, "");
    assert "-" + "" == "-";
    if q.HttpRun? {
      HttpShape(q, node);
      GeneratorsApart(IpcTail(r, ""), HttpTail(q, node));
    } else {
      IpcShape(q, node);
      CancelLeft("collab-", "ipc-" + IpcTail(r, ""), "ipc-" + IpcTail(q, node));
      CancelLeft("ipc-", IpcTail(r, ""), IpcTail(q, node));
      TailPrefix(r, q, node);
    }
  }

  lemma TailPrefix(r: RunId, q: RunId, node: string)
    requires r.IpcRun? && q.IpcRun? && node == "exec"
    ensures IpcTail(r, "") <= IpcTail(q, node) <==> q == r || IpcTail(r, "") <= q.taskId + "-"
  {
    var own, s := IpcTail(r, ""), IpcTail(q, node);
    var d := Decimal(q.number);
    DecimalDigits(q.number);
    Regroup(q.taskId, "-", d + ("-" + node));
    assert q.taskId + "-" <= s;
    if q == r {
      CancelLeft(q.taskId, "-" + (d + "-"), "-" + (d + ("-" + node)));
      CancelLeft("-", d + "-", d + ("-" + node));
      CancelLeft(d, "-", "-" + node);
    } else if own <= s && !(own <= q.taskId + "-") {
      LastDash(own, r.taskId + ("-" + Decimal(r.number)), q.taskId, d, node);
      DecimalDigits(r.number);
      NumeralStarts(r.taskId, Decimal(r.number), q.taskId, d);
      DecimalInjective(r.number, q.number);
    }
  }

  /** Past the caller's part the only dash left in an IPC task id is the one before "exec". */
  lemma LastDash(own: string, named: string, u: string, d: string, node: string)
    requires Digits(d) && node == "exec" && own == named + "-"
    requires own <= u + ("-" + (d + ("-" + node))) && !(own <= u + "-")
    ensures named == u + ("-" + d)
  {
    var s := u + ("-" + (d + ("-" + node)));
    var k := |own| - 1;
    assert s[k] == own[k] == '-';
    assert forall i :: |u| < i < |u| + 1 + |d| ==> s[i] == d[i - |u| - 1];
    assert forall i :: |u| + 2 + |d| <= i < |s| ==> s[i] == node[i - |u| - 2 - |d|];
    assert k == |u| + 1 + |d|;
    assert named == s[..k] == u + ("-" + d);
  }

  /** The over-protection is real: run "a"#1 shields the task of the unrelated run "a-1-x"#2. */
  lemma IpcOverProtects()
    ensures Protects(IpcRun("a", 1), TaskId(IpcRun("a-1-x", 2), "exec"))
  {
    assert Decimal(1) == "1";
    assert "a" + ("-" + ("1" + "-")) <= "a-1-x" + "-";
    IpcProtectsExactly(IpcRun("a", 1), IpcRun("a-1-x", 2), "exec");
  }
}
