/**
  `ptk test ! ( cmd )`: the negations and the grouping in front of a command are peeled off
  before the command is run directly, and its exit status is negated afterwards.

  The reference is a small expression language: what bash makes of nested `!` and `( … )` around
  one command. There a run of `!` toggles one flag, so two in a row leave the status as it is,
  while a group in between makes each of them a negation of its own.
*/
module NegationPeel {
  import opened Options

  type Tokens = seq<string>

  const BANG := "!"
  const OPEN := "("
  const CLOSE := ")"

  // ----- the reference: nested negation and grouping

  /** `Not` is a whole run of `count` bangs. */
  datatype Expr = Command(tokens: Tokens) | Not(count: nat, arg: Expr) | Group(arg: Expr)

  function Bangs(n: nat): Tokens {
    seq(n, i => BANG)
  }

  function Flatten(e: Expr): Tokens {
    match e
    case Command(tokens) => tokens
    case Not(count, arg) => Bangs(count) + Flatten(arg)
    case Group(arg) => [OPEN] + Flatten(arg) + [CLOSE]
  }

  function Negations(e: Expr): nat {
    match e
    case Command(_) => 0
    case Not(count, arg) => count + Negations(arg)
    case Group(arg) => Negations(arg)
  }

  function Core(e: Expr): Tokens {
    match e
    case Command(tokens) => tokens
    case Not(_, arg) => Core(arg)
    case Group(arg) => Core(arg)
  }

  function Negated(status: int): int {
    if status == 0 then 1 else 0
  }

  /** Exit status of the whole expression when `run` gives the status of a plain command: a run of
      bangs negates once if it is odd, and not at all if it is even. */
  function Eval(e: Expr, run: Tokens -> int): int {
    match e
    case Command(tokens) => run(tokens)
    case Not(count, arg) => if count % 2 == 1 then Negated(Eval(arg, run)) else Eval(arg, run)
    case Group(arg) => Eval(arg, run)
  }

  /** Open minus closed parentheses. */
  function Depth(ts: Tokens): int {
    if ts == [] then 0
    else
      var last := ts[|ts| - 1];
      Depth(ts[..|ts| - 1]) + (if last == OPEN then 1 else if last == CLOSE then -1 else 0)
  }

  /** The depth before token `k`. */
  function DepthAt(ts: Tokens, k: nat): int
    requires k <= |ts|
  {
    Depth(ts[..k])
  }

  ghost predicate Balanced(ts: Tokens) {
    Depth(ts) == 0 && forall k :: 0 <= k <= |ts| ==> DepthAt(ts, k) >= 0
  }

  predicate AllBangs(ts: Tokens) {
    forall i :: 0 <= i < |ts| ==> ts[i] == BANG
  }

  ghost predicate IsGroup(ts: Tokens) {
    |ts| > 2 && ts[0] == OPEN && ts[|ts| - 1] == CLOSE && Balanced(ts[1..|ts| - 1])
  }

  predicate IsNegation(ts: Tokens) {
    |ts| > 0 && ts[0] == BANG && !AllBangs(ts)
  }

  /** A bare command is nothing that could still be peeled. */
  ghost predicate Irreducible(ts: Tokens) {
    !IsNegation(ts) && !IsGroup(ts)
  }

  /** Expressions whose reading is the one the tokens have; runs of bangs are whole. */
  ghost predicate WellFormed(e: Expr) {
    match e
    case Command(tokens) => Irreducible(tokens)
    case Not(count, arg) => count > 0 && WellFormed(arg) && !arg.Not? && !AllBangs(Flatten(arg))
    case Group(arg) => WellFormed(arg) && Flatten(arg) != [] && Balanced(Flatten(arg))
  }

  /** Length of the run of `!` in front. */
  function LeadingBangs(ts: Tokens): (n: nat)
    ensures n <= |ts| && (forall i :: 0 <= i < n ==> ts[i] == BANG)
    ensures n < |ts| ==> ts[n] != BANG
  {
    if ts == [] || ts[0] != BANG then 0 else 1 + LeadingBangs(ts[1..])
  }

  /** The reading of a token list. */
  ghost function Parse(ts: Tokens): (e: Expr)
    ensures Flatten(e) == ts && WellFormed(e) && (e.Not? <==> IsNegation(ts))
    decreases |ts|
  {
    if IsNegation(ts) then
      var n := LeadingBangs(ts);
      assert ts == Bangs(n) + ts[n..] && ts[n..][0] == ts[n];
      Not(n, Parse(ts[n..]))
    else if IsGroup(ts) then
      Group(Parse(ts[1..|ts| - 1]))
    else
      Command(ts)
  }

  /** A well-formed argument of a negation does not start with a bang. */
  lemma RunIsWhole(arg: Expr)
    requires WellFormed(arg) && !arg.Not? && !AllBangs(Flatten(arg))
    ensures Flatten(arg) != [] && Flatten(arg)[0] != BANG
  {
    if Flatten(arg) != [] {
      assert arg.Command? ==> !IsNegation(arg.tokens);
    }
  }

  lemma {:induction false} LeadingBangsIs(n: nat, rest: Tokens)
    requires rest != [] && rest[0] != BANG
    ensures LeadingBangs(Bangs(n) + rest) == n
  {
    if n > 0 {
      assert (Bangs(n) + rest)[1..] == Bangs(n - 1) + rest;
      LeadingBangsIs(n - 1, rest);
    } else {
      assert Bangs(0) + rest == rest;
    }
  }

  /** A token list has only one well-formed reading. */
  lemma {:induction false} ParseIsUnique(e: Expr)
    requires WellFormed(e)
    ensures Parse(Flatten(e)) == e
  {
    var ts := Flatten(e);
    match e
    case Command(_) =>
    case Not(count, arg) =>
      RunIsWhole(arg);
      LeadingBangsIs(count, Flatten(arg));
      assert ts[count] != BANG && ts[count..] == Flatten(arg);
      ParseIsUnique(arg);
    case Group(arg) =>
      assert ts[1..|ts| - 1] == Flatten(arg);
      assert ts[0] != BANG;
      ParseIsUnique(arg);
  }

  // ----- strip_outer_group

  lemma {:induction false} DepthAppend(a: Tokens, b: Tokens)
    ensures Depth(a + b) == Depth(a) + Depth(b)
  {
    if b == [] {
      assert a + b == a;
    } else {
      assert (a + b)[..|a + b| - 1] == a + b[..|b| - 1];
      DepthAppend(a, b[..|b| - 1]);
    }
  }

  lemma OneToken(token: string)
    ensures Depth([token]) == if token == OPEN then 1 else if token == CLOSE then -1 else 0
  {
    assert [token][..0] == [];
  }

  /** Prefix depths of a wrapped list are one above those of its inside. */
  lemma InnerDepth(ts: Tokens, k: nat)
    requires |ts| > 2 && ts[0] == OPEN && k < |ts| - 1
    ensures DepthAt(ts, k + 1) == 1 + DepthAt(ts[1..|ts| - 1], k)
  {
    assert ts[..k + 1] == [OPEN] + ts[1..|ts| - 1][..k];
    DepthAppend([OPEN], ts[1..|ts| - 1][..k]);
    OneToken(OPEN);
  }

  lemma WholeDepth(ts: Tokens)
    requires |ts| > 2 && ts[0] == OPEN && ts[|ts| - 1] == CLOSE
    ensures Depth(ts) == Depth(ts[1..|ts| - 1])
  {
    var inner, n := ts[1..|ts| - 1], |ts| - 1;
    InnerDepth(ts, n - 1);
    DepthAppend(ts[..n], [CLOSE]);
    OneToken(CLOSE);
    assert ts == ts[..n] + [CLOSE] && inner[..n - 1] == inner;
  }

  /** Wrapped lists that never close early have a balanced inside exactly when they close at the end. */
  lemma InnerBalance(ts: Tokens)
    requires |ts| > 2 && ts[0] == OPEN && ts[|ts| - 1] == CLOSE
    requires forall k :: 0 < k < |ts| ==> DepthAt(ts, k) > 0
    ensures Balanced(ts[1..|ts| - 1]) <==> Depth(ts) == 0
  {
    var inner := ts[1..|ts| - 1];
    WholeDepth(ts);
    forall k | 0 <= k <= |inner| ensures DepthAt(inner, k) >= 0 {
      InnerDepth(ts, k);
    }
  }

  /** Peels one `( … )` exactly when it wraps the whole command. */
  method StripOuterGroup(command: Tokens) returns (r: Option<Tokens>)
    ensures r.Some? <==> IsGroup(command)
    ensures r.Some? ==> r.value == command[1..|command| - 1]
  {
    if |command| <= 2 || command[0] != OPEN || command[|command| - 1] != CLOSE {
      return None;
    }
    var depth := 0;
    for index := 0 to |command|
      invariant depth == DepthAt(command, index) >= 0
      invariant 0 < index < |command| ==> depth > 0
      invariant forall k :: 0 < k < |command| && k <= index ==> DepthAt(command, k) > 0
    {
      var token := command[index];
      assert command[..index + 1][..index] == command[..index];
      if token == OPEN {
        depth := depth + 1;
      } else if token == CLOSE {
        depth := depth - 1;
      }
      if depth == 0 && index + 1 < |command| {
        InnerDepth(command, index);
        assert DepthAt(command[1..|command| - 1], index) == -1;
        return None;
      }
    }
    assert command[..|command|] == command;
    InnerBalance(command);
    if depth == 0 {
      return Some(command[1..|command| - 1]);
    } else {
      return None;
    }
  }

  // ----- split_leading_negations

  /** `ts` reads as `n` more negations around what `rest` reads as. */
  ghost predicate PeelsTo(ts: Tokens, n: nat, rest: Tokens) {
    Negations(Parse(ts)) == n + Negations(Parse(rest)) && Core(Parse(ts)) == Core(Parse(rest))
  }

  lemma IrreducibleReadsAsItself(ts: Tokens)
    requires Irreducible(ts)
    ensures Negations(Parse(ts)) == 0 && Core(Parse(ts)) == ts
  {
  }

  /** Peels `!` runs and whole-command groups until neither applies. */
  method SplitLeadingNegations(command0: Tokens) returns (negations: nat, command: Tokens)
    ensures negations == Negations(Parse(command0))
    ensures command == Core(Parse(command0))
    ensures Irreducible(command)
  {
    command := command0;
    negations := 0;
    while true
      invariant PeelsTo(command0, negations, command)
      decreases |command|
    {
      var bangs := LeadingBangs(command);
      if bangs > 0 && bangs < |command| {
        NegationLayer(command, bangs);
        negations := negations + bangs;
        command := command[bangs..];
        continue;
      }
      var grouped := StripOuterGroup(command);
      if grouped.Some? {
        GroupLayer(command);
        command := grouped.value;
        continue;
      }
      IrreducibleReadsAsItself(command);
      return;
    }
  }

  lemma GroupLayer(ts: Tokens)
    requires IsGroup(ts)
    ensures PeelsTo(ts, 0, ts[1..|ts| - 1])
  {
    assert !IsNegation(ts);
  }

  lemma NegationLayer(ts: Tokens, bangs: nat)
    requires bangs == LeadingBangs(ts) && 0 < bangs < |ts|
    ensures PeelsTo(ts, bangs, ts[bangs..])
  {
    assert IsNegation(ts);
  }

  // ----- the Test arm

  function Reported(negations: nat, code: int): int {
    if negations % 2 == 1 then Negated(code) else code
  }

  /** Parity of the peeled negations is enough to get the success or failure right. */
  lemma {:induction false} ParityDecides(e: Expr, run: Tokens -> int)
    ensures Reported(Negations(e), run(Core(e))) == 0 <==> Eval(e, run) == 0
  {
    match e
    case Command(_) =>
    case Not(_, arg) => ParityDecides(arg, run);
    case Group(arg) => ParityDecides(arg, run);
  }

  /** Every run of bangs is even, so bash negates nothing. */
  predicate RunsAreEven(e: Expr) {
    match e
    case Command(_) => true
    case Not(count, arg) => count % 2 == 0 && RunsAreEven(arg)
    case Group(arg) => RunsAreEven(arg)
  }

  lemma {:induction false} EvalRange(e: Expr, run: Tokens -> int)
    ensures if RunsAreEven(e) then Eval(e, run) == run(Core(e)) else Eval(e, run) == 0 || Eval(e, run) == 1
    ensures RunsAreEven(e) ==> Negations(e) % 2 == 0
  {
    match e
    case Command(_) =>
    case Not(_, arg) => EvalRange(arg, run);
    case Group(arg) => EvalRange(arg, run);
  }

  /** The reported number itself is bash's exactly unless odd runs of bangs, kept apart by groups,
      cancel in the total: then a status above 1 is reported where bash has made it 1. */
  lemma ReportedIsExact(e: Expr, run: Tokens -> int)
    ensures Reported(Negations(e), run(Core(e))) == Eval(e, run)
       <==> Negations(e) % 2 == 1 || run(Core(e)) == 0 || run(Core(e)) == 1 || RunsAreEven(e)
  {
    ParityDecides(e, run);
    EvalRange(e, run);
  }

  /** `! ( ! cmd )`. */
  function Regrouped(cmd: string): Tokens {
    [BANG, OPEN, BANG, cmd, CLOSE]
  }

  /** A token that is a command's name. */
  predicate IsName(cmd: string) {
    cmd != BANG && cmd != OPEN && cmd != CLOSE && !StartsWithDash(cmd)
  }

  /** For example: with `cmd` ending in 3, `! ( ! cmd )` is reported as 3, and bash says 1. */
  method RegroupedNegations(cmd: string, run: (Tokens, Option<string>) -> Option<int>) returns (a: Answer)
    requires IsName(cmd) && run([cmd], None) == Some(3)
    ensures a == Exit(3) && Eval(Parse(Regrouped(cmd)), ts => run(ts, None).GetOr(0)) == 1
  {
    RegroupedReading(cmd);
    RegroupedIsNotNative(cmd);
    DoublyNegated(Command([cmd]), ts => run(ts, None).GetOr(0));
    a := RunTest(Regrouped(cmd), None, ts => None, run);
  }

  lemma DoublyNegated(c: Expr, run: Tokens -> int)
    requires c.Command?
    ensures var e := Not(1, Group(Not(1, c)));
            Core(e) == c.tokens && Negations(e) == 2 && Eval(e, run) == Negated(Negated(run(c.tokens)))
  {
    var e1 := Not(1, c);
    assert Core(e1) == c.tokens && Negations(e1) == 1 && Eval(e1, run) == Negated(run(c.tokens));
    var e2 := Group(e1);
    assert Core(e2) == c.tokens && Negations(e2) == 1 && Eval(e2, run) == Eval(e1, run);
  }

  lemma RegroupedReading(cmd: string)
    requires IsName(cmd)
    ensures Parse(Regrouped(cmd)) == Not(1, Group(Not(1, Command([cmd]))))
  {
    var inner := Not(1, Command([cmd]));
    PlainIsIrreducible(cmd);
    assert Bangs(1) == [BANG];
    assert Flatten(inner) == [BANG, cmd];
    assert [BANG, cmd][1] == cmd;
    NoParentheses([BANG, cmd]);
    WrappedReading(inner);
    assert Regrouped(cmd) == [BANG] + ([OPEN] + [BANG, cmd] + [CLOSE]);
  }

  /** `! ( … )` around a well-formed expression. */
  lemma WrappedReading(inner: Expr)
    requires WellFormed(inner) && Flatten(inner) != [] && Balanced(Flatten(inner))
    ensures Parse([BANG] + ([OPEN] + Flatten(inner) + [CLOSE])) == Not(1, Group(inner))
  {
    assert Flatten(Group(inner))[0] == OPEN;
    assert Bangs(1) == [BANG];
    ParseIsUnique(Not(1, Group(inner)));
  }

  lemma PlainIsIrreducible(token: string)
    ensures Irreducible([token])
  {
    assert token == BANG ==> AllBangs([token]);
  }

  lemma {:induction false} NoParentheses(ts: Tokens)
    requires OPEN !in ts && CLOSE !in ts
    ensures Depth(ts) == 0 && Balanced(ts)
  {
    if ts != [] {
      var n := |ts| - 1;
      assert ts == ts[..n] + [ts[n]];
      NoParentheses(ts[..n]);
      forall k | 0 <= k <= |ts| ensures DepthAt(ts, k) >= 0 {
        if k <= n {
          assert ts[..k] == ts[..n][..k] && DepthAt(ts[..n], k) >= 0;
        } else {
          assert ts[..k] == ts;
        }
      }
    }
  }

  lemma RegroupedIsNotNative(cmd: string)
    requires IsName(cmd)
    ensures !IsNative(Regrouped(cmd))
  {
    assert Regrouped(cmd)[3] == cmd;
    NativeMeans(Regrouped(cmd));
  }

  /** Two bangs in a row agree with bash whatever the status. */
  lemma DoubleBangIsExact(command: Tokens, run: Tokens -> int)
    requires Irreducible(command) && command != [] && command[0] != BANG
    ensures Reported(Negations(Parse([BANG, BANG] + command)), run(Core(Parse([BANG, BANG] + command))))
         == Eval(Parse([BANG, BANG] + command), run) == run(command)
  {
    var e := Not(2, Command(command));
    assert Bangs(2) == [BANG, BANG];
    ParseIsUnique(e);
  }

  // ----- native test expressions

  predicate Opens(token: string) {
    token == BANG || token == OPEN
  }

  predicate StartsWithDash(token: string) {
    token != "" && token[0] == '-'
  }

  predicate IsNative(command: Tokens) {
    if command == [] then false
    else if Opens(command[0]) then IsNative(command[1..])
    else StartsWithDash(command[0])
  }

  /** `command` is a native expression behind its first `k` tokens. */
  predicate DashAt(command: Tokens, k: nat) {
    k < |command| && StartsWithDash(command[k]) && forall i :: 0 <= i < k ==> Opens(command[i])
  }

  lemma {:induction false} NativeHasDash(command: Tokens) returns (k: nat)
    requires IsNative(command)
    ensures DashAt(command, k)
  {
    if Opens(command[0]) {
      var k' := NativeHasDash(command[1..]);
      k := k' + 1;
      assert forall i :: 0 < i < k ==> command[i] == command[1..][i - 1];
    } else {
      k := 0;
    }
  }

  lemma {:induction false} DashIsNative(command: Tokens, k: nat)
    requires DashAt(command, k)
    ensures IsNative(command)
  {
    if k > 0 {
      assert forall i :: 0 <= i < k - 1 ==> command[1..][i] == command[i + 1];
      DashIsNative(command[1..], k - 1);
    }
  }

  /** A native expression is one where what the openers in front apply to starts with a dash. */
  lemma NativeMeans(command: Tokens)
    ensures IsNative(command) <==> exists k: nat :: DashAt(command, k)
  {
    if IsNative(command) {
      var k := NativeHasDash(command);
    }
    if k: nat :| DashAt(command, k) {
      DashIsNative(command, k);
    }
  }

  /** What the subcommand ends with: a usage error, a runner that failed, or a status. */
  datatype Answer = UsageError | Failed | Exit(status: int)

  function AnswerOf(status: Option<int>): Answer {
    match status case Some(n) => Exit(n) case None => Failed
  }

  /** The whole `Test` arm. `native` runs the `test` binary, `run` a command, with a shell if asked. */
  method RunTest(command: Tokens, shell: Option<string>,
    native: Tokens -> Option<int>, run: (Tokens, Option<string>) -> Option<int>) returns (a: Answer)
    ensures a.UsageError? <==> shell.Some? && |command| != 1
    ensures shell.None? && IsNative(command) ==> a == AnswerOf(native(command))
    ensures shell.Some? && |command| == 1 ==> a == AnswerOf(run(command, shell))
    ensures shell.None? && !IsNative(command) ==>
              match run(Core(Parse(command)), None)
              case None => a == Failed
              case Some(code) =>
                a == Exit(Reported(Negations(Parse(command)), code)) &&
                (a.status == 0 <==> Eval(Parse(command), ts => run(ts, None).GetOr(0)) == 0)
  {
    if shell.Some? && |command| != 1 {
      return UsageError;
    }
    if shell.None? && IsNative(command) {
      return AnswerOf(native(command));
    }
    var negations, peeled := SplitLeadingNegations(command);
    var code := run(peeled, shell);
    ParityDecides(Parse(command), ts => run(ts, None).GetOr(0));
    match code
    case None => a := Failed;
    case Some(n) => a := Exit(if negations % 2 == 1 then Negated(n) else n);
  }
}
