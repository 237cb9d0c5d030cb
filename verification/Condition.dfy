/**
 Branch conditions: the validator that registration runs and the evaluator the engine runs
 (runtime/core/src/condition.rs), against the grammar the module documents. Parsing a JSON text is a
 parameter.
 */
module Condition {
  import opened Wrappers
  import opened Json

  /** `serde_json::from_str`, for a literal. */
  type JsonParser = string -> Option<Value>

  datatype Op = Eq | Ne

  predicate IsWhite(c: char) {
    || '\t' <= c <= '\r' || c == ' ' || c == '\U{85}' || c == '\U{A0}' || c == '\U{1680}'
    || '\U{2000}' <= c <= '\U{200A}' || c == '\U{2028}' || c == '\U{2029}' || c == '\U{202F}' || c == '\U{205F}'
    || c == '\U{3000}'
  }

  function TrimStart(s: string): string {
    if s == "" || !IsWhite(s[0]) then s else TrimStart(s[1..])
  }

  function TrimEnd(s: string): string {
    if s == "" || !IsWhite(s[|s| - 1]) then s else TrimEnd(s[..|s| - 1])
  }

  function Trim(s: string): string {
    TrimEnd(TrimStart(s))
  }

  // ---------------------------------------------------------------------------
  // Operators
  // ---------------------------------------------------------------------------

  function OpAt(s: string, i: int): Option<Op> {
    if i < 0 || i + 1 >= |s| || s[i + 1] != '=' then None
    else if s[i] == '!' then Some(Ne)
    else if s[i] == '=' then Some(Eq)
    else None
  }

  predicate IsFirstOp(s: string, p: nat, op: Op) {
    OpAt(s, p) == Some(op) && forall i | 0 <= i < p :: OpAt(s, i).None?
  }

  predicate HasOp(s: string) {
    exists i | 0 <= i < |s| :: OpAt(s, i).Some?
  }

  function FirstOpFrom(s: string, i: nat): (found: Option<(nat, Op)>)
    requires i <= |s|
    ensures found.Some? ==> i <= found.value.0 < |s| && OpAt(s, found.value.0) == Some(found.value.1)
    ensures found.Some? ==> forall j | i <= j < found.value.0 :: OpAt(s, j).None?
    ensures found.None? ==> forall j | i <= j < |s| :: OpAt(s, j).None?
    decreases |s| - i
  {
    if i == |s| then None
    else if OpAt(s, i).Some? then Some((i, OpAt(s, i).value))
    else FirstOpFrom(s, i + 1)
  }

  function FirstOp(s: string): (found: Option<(nat, Op)>) {
    FirstOpFrom(s, 0)
  }

  /** `find_first_op`. */
  method FindFirstOp(s: string) returns (found: Option<(nat, Op)>)
    ensures found.Some? ==> IsFirstOp(s, found.value.0, found.value.1)
    ensures found.None? <==> !HasOp(s)
    ensures found == FirstOp(s)
  {
    found := None;
    if |s| < 2 {
      return;
    }
    for i := 0 to |s| - 1
      invariant forall j | 0 <= j < i :: OpAt(s, j).None?
    {
      if s[i] == '!' && s[i + 1] == '=' {
        found := Some((i, Ne));
        FirstOpIsUnique(s, i, Ne);
        return;
      }
      if s[i] == '=' && s[i + 1] == '=' {
        found := Some((i, Eq));
        FirstOpIsUnique(s, i, Eq);
        return;
      }
    }
  }

  lemma FirstOpIsUnique(s: string, p: nat, op: Op)
    requires IsFirstOp(s, p, op)
    ensures FirstOp(s) == Some((p, op))
  {
  }

  // ---------------------------------------------------------------------------
  // Paths
  // ---------------------------------------------------------------------------

  predicate DotFree(s: string) {
    '.' !in s
  }

  function Split(s: string): (segments: seq<string>)
    ensures |segments| > 0
  {
    if s == "" then [""]
    else
      var rest := Split(s[1..]);
      if s[0] == '.' then [""] + rest else [[s[0]] + rest[0]] + rest[1..]
  }

  function Dotted(segments: seq<string>): string
    requires |segments| > 0
  {
    if |segments| == 1 then segments[0] else segments[0] + ("." + Dotted(segments[1..]))
  }

  lemma {:induction false} SplitDotted(s: string)
    ensures Dotted(Split(s)) == s
    ensures forall k | 0 <= k < |Split(s)| :: DotFree(Split(s)[k])
  {
    if s != "" {
      SplitDotted(s[1..]);
      var rest := Split(s[1..]);
      if s[0] == '.' {
        assert ([""] + rest)[1..] == rest;
      } else {
        var joined := [[s[0]] + rest[0]] + rest[1..];
        assert joined[1..] == rest[1..];
        if |rest| > 1 {
          assert ([s[0]] + rest[0]) + ("." + Dotted(rest[1..])) == [s[0]] + (rest[0] + ("." + Dotted(rest[1..])));
        }
      }
    }
  }

  lemma {:induction false} DottedSplits(segments: seq<string>)
    requires |segments| > 0 && forall k | 0 <= k < |segments| :: DotFree(segments[k])
    ensures Split(Dotted(segments)) == segments
    decreases |segments|, |segments[0]|
  {
    var first := segments[0];
    if first == "" {
      if |segments| > 1 {
        DottedSplits(segments[1..]);
        assert Dotted(segments) == "." + Dotted(segments[1..]);
        assert segments == [""] + segments[1..];
      } else {
        assert segments == [""];
      }
    } else {
      var shorter := [first[1..]] + segments[1..];
      assert shorter[1..] == segments[1..];
      assert forall k | 0 < k < |shorter| :: shorter[k] == segments[k];
      DottedSplits(shorter);
      assert Dotted(segments) == [first[0]] + Dotted(shorter);
      assert first[0] in first;
      assert first == [first[0]] + first[1..] && segments == [first] + segments[1..];
    }
  }

  predicate IsDigit(c: char) {
    '0' <= c <= '9'
  }

  function Decimal(s: string): nat
    requires forall c | c in s :: IsDigit(c)
  {
    if s == "" then 0
    else
      var last := s[|s| - 1];
      assert last in s && IsDigit(last);
      Decimal(s[..|s| - 1]) * 10 + (last as int - '0' as int)
  }

  const USIZE_MAX: nat := 0xffff_ffff_ffff_ffff

  /** `str::parse::<usize>`: digits, after an optional plus. */
  function ParseIndex(s: string): Option<nat> {
    var digits := if s != "" && s[0] == '+' then s[1..] else s;
    if digits == "" || exists c | c in digits :: !IsDigit(c) then None
    else if Decimal(digits) > USIZE_MAX then None
    else Some(Decimal(digits))
  }

  function Descend(v: Value, segment: string): Option<Value> {
    if segment == "" then None
    else
      match v
      case Object(members) => if segment in members then Some(members[segment]) else None
      case Array(items) =>
        var index := ParseIndex(segment);
        if index.Some? && index.value < |items| then Some(items[index.value]) else None
      case _ => None
  }

  /** Descending through every segment; nothing on the way, nothing at the end. */
  function Resolve(v: Option<Value>, segments: seq<string>): Option<Value>
    decreases |segments|
  {
    if v.None? || segments == [] then v else Resolve(Descend(v.value, segments[0]), segments[1..])
  }

  /** `resolve_path`. */
  method ResolvePath(root: Value, path: string) returns (found: Option<Value>)
    ensures found == Resolve(Some(root), Split(path))
  {
    var segments := Split(path);
    var current := root;
    for k := 0 to |segments|
      invariant Resolve(Some(current), segments[k..]) == Resolve(Some(root), segments)
    {
      var next := Descend(current, segments[k]);
      if next.None? {
        return None;
      }
      current := next.value;
    }
    return Some(current);
  }

  lemma {:induction false} EmptySegmentFindsNothing(v: Option<Value>, segments: seq<string>)
    requires "" in segments
    ensures Resolve(v, segments).None?
    decreases |segments|
  {
    if v.Some? && segments[0] != "" {
      EmptySegmentFindsNothing(Descend(v.value, segments[0]), segments[1..]);
    }
  }

  // ---------------------------------------------------------------------------
  // Validator and evaluator
  // ---------------------------------------------------------------------------

  function StripState(s: string): Option<string> {
    if |s| >= 6 && s[..6] == "state." then Some(s[6..]) else None
  }

  /** `require_state_path`. */
  predicate IsStatePath(s: string) {
    var p := StripState(s);
    p.Some? && p.value != "" && "" !in Split(p.value)
  }

  /** `validate_expression`. */
  predicate Validate(expr: string, parse: JsonParser) {
    var e := Trim(expr);
    if e == "" then false
    else
      match FirstOp(e)
      case Some((p, _)) => IsStatePath(Trim(e[..p])) && parse(Trim(e[p + 2..])).Some?
      case None => IsStatePath(e)
  }

  predicate IsTruthy(v: Option<Value>) {
    match v
    case None => false
    case Some(Null) => false
    case Some(Bool(b)) => b
    case Some(Num(Integral(i))) => i != 0
    case Some(Num(Fractional(f))) => f != 0.0
    case Some(String(s)) => s != ""
    case Some(Array(items)) => items != []
    case Some(Object(members)) => members != map[]
  }

  predicate ValuesEqual(v: Option<Value>, literal: Value) {
    match v
    case None => literal == Null
    case Some(value) => value == literal
  }

  /** `eval_condition`. */
  predicate Eval(expr: string, state: Value, parse: JsonParser) {
    var e := Trim(expr);
    if e == "" then false
    else
      match FirstOp(e)
      case Some((p, op)) =>
        var path := StripState(Trim(e[..p]));
        var literal := parse(Trim(e[p + 2..]));
        if path.None? || path.value == "" || literal.None? then false
        else
          var equal := ValuesEqual(Resolve(Some(state), Split(path.value)), literal.value);
          if op.Eq? then equal else !equal
      case None =>
        var path := StripState(e);
        if path.None? || path.value == "" then false
        else IsTruthy(Resolve(Some(state), Split(path.value)))
  }

  // ---------------------------------------------------------------------------
  // The grammar
  // ---------------------------------------------------------------------------

  datatype Expr = Truthiness(path: seq<string>) | Comparison(path: seq<string>, op: Op, literal: Value)

  predicate Idents(path: seq<string>) {
    |path| > 0 && forall k | 0 <= k < |path| :: path[k] != "" && DotFree(path[k])
  }

  /** What an expression of the grammar means. */
  predicate Means(e: Expr, state: Value) {
    var v := Resolve(Some(state), e.path);
    match e
    case Truthiness(_) => IsTruthy(v)
    case Comparison(_, Eq, literal) => ValuesEqual(v, literal)
    case Comparison(_, Ne, literal) => !ValuesEqual(v, literal)
  }

  /** Text `expr` is a reading of `e`: its path behind `state`, alone, or before its first operator with a
      literal after it. */
  ghost predicate Reads(expr: string, e: Expr, parse: JsonParser) {
    && Idents(e.path)
    && match e
       case Truthiness(path) => Trim(expr) == "state." + Dotted(path) && !HasOp(Trim(expr))
       case Comparison(path, op, literal) =>
         exists p | 0 <= p < |Trim(expr)| ::
           && IsFirstOp(Trim(expr), p, op)
           && p + 2 <= |Trim(expr)|
           && Trim(Trim(expr)[..p]) == "state." + Dotted(path)
           && parse(Trim(Trim(expr)[p + 2..])) == Some(literal)
  }

  lemma StatePathIff(s: string)
    ensures IsStatePath(s) <==> exists path: seq<string> :: Idents(path) && s == "state." + Dotted(path)
  {
    if IsStatePath(s) {
      var path := Split(StripState(s).value);
      SplitDotted(StripState(s).value);
      assert Idents(path) && s == "state." + Dotted(path);
    }
    if path: seq<string> :| Idents(path) && s == "state." + Dotted(path) {
      StatePathOf(s, path);
    }
  }

  lemma StatePathOf(s: string, path: seq<string>)
    requires Idents(path) && s == "state." + Dotted(path)
    ensures IsStatePath(s) && StripState(s) == Some(Dotted(path)) && Split(Dotted(path)) == path
  {
    assert s[..6] == "state." && s[6..] == Dotted(path);
    DottedSplits(path);
  }

  /** Registration accepts exactly the expressions of the grammar. */
  lemma AcceptsTheGrammar(expr: string, parse: JsonParser)
    ensures Validate(expr, parse) <==> exists e: Expr :: Reads(expr, e, parse)
  {
    var t := Trim(expr);
    if Validate(expr, parse) {
      match FirstOp(t)
      case Some((p, op)) =>
        StatePathIff(Trim(t[..p]));
        var path: seq<string> :| Idents(path) && Trim(t[..p]) == "state." + Dotted(path);
        assert IsFirstOp(t, p, op);
        assert Reads(expr, Comparison(path, op, parse(Trim(t[p + 2..])).value), parse);
      case None =>
        StatePathIff(t);
        var path: seq<string> :| Idents(path) && t == "state." + Dotted(path);
        assert Reads(expr, Truthiness(path), parse);
    }
    if e: Expr :| Reads(expr, e, parse) {
      ReadingIsAccepted(expr, e, parse, Null);
    }
  }

  lemma {:induction false} ReadingIsAccepted(expr: string, e: Expr, parse: JsonParser, state: Value)
    requires Reads(expr, e, parse)
    ensures Validate(expr, parse) && Eval(expr, state, parse) == Means(e, state)
  {
    var t := Trim(expr);
    match e
    case Truthiness(path) =>
      StatePathOf(t, path);
    case Comparison(path, op, literal) =>
      var p :| 0 <= p < |t| && IsFirstOp(t, p, op) && p + 2 <= |t| && Trim(t[..p]) == "state." + Dotted(path)
               && parse(Trim(t[p + 2..])) == Some(literal);
      ComparisonReads(expr, t, p, path, op, literal, parse, state);
  }

  lemma {:induction false} ComparisonReads(expr: string, t: string, p: nat, path: seq<string>, op: Op, literal: Value,
                        parse: JsonParser, state: Value)
    requires t == Trim(expr) && IsFirstOp(t, p, op) && p + 2 <= |t| && Idents(path)
    requires Trim(t[..p]) == "state." + Dotted(path) && parse(Trim(t[p + 2..])) == Some(literal)
    ensures Validate(expr, parse) && Eval(expr, state, parse) == Means(Comparison(path, op, literal), state)
  {
    FirstOpIsUnique(t, p, op);
    StatePathOf(Trim(t[..p]), path);
  }

  /** And on those the evaluator computes what the grammar says, in every state: an expression has one
      reading at most, and evaluates to its meaning. */
  lemma {:induction false} EvaluatesTheGrammar(expr: string, e: Expr, parse: JsonParser, state: Value)
    requires Reads(expr, e, parse)
    ensures Eval(expr, state, parse) == Means(e, state)
    ensures forall f: Expr | Reads(expr, f, parse) :: f == e
  {
    ReadingIsAccepted(expr, e, parse, state);
    forall f: Expr | Reads(expr, f, parse) ensures f == e {
      OneReading(expr, e, f, parse);
    }
  }

  /** The reading an accepted text has. */
  function ReadingOf(t: string, parse: JsonParser): Expr
    requires Validate(t, parse) && Trim(t) == t
  {
    match FirstOp(t)
    case Some((p, op)) =>
      Comparison(Split(StripState(Trim(t[..p])).value), op, parse(Trim(t[p + 2..])).value)
    case None => Truthiness(Split(StripState(t).value))
  }

  lemma OneReading(expr: string, e: Expr, f: Expr, parse: JsonParser)
    requires Reads(expr, e, parse) && Reads(expr, f, parse)
    ensures f == e
  {
    var t := Trim(expr);
    TrimTwice(expr);
    ReadingIs(expr, e, parse);
    ReadingIs(expr, f, parse);
  }

  lemma {:induction false} ReadingIs(expr: string, e: Expr, parse: JsonParser)
    requires Reads(expr, e, parse) && Trim(Trim(expr)) == Trim(expr)
    ensures Validate(Trim(expr), parse) && e == ReadingOf(Trim(expr), parse)
  {
    var t := Trim(expr);
    match e
    case Truthiness(path) =>
      StatePathOf(t, path);
    case Comparison(path, op, literal) =>
      var p :| 0 <= p < |t| && IsFirstOp(t, p, op) && p + 2 <= |t| && Trim(t[..p]) == "state." + Dotted(path)
               && parse(Trim(t[p + 2..])) == Some(literal);
      FirstOpIsUnique(t, p, op);
      StatePathOf(Trim(t[..p]), path);
  }

  predicate Trimmed(s: string) {
    s == "" || (!IsWhite(s[0]) && !IsWhite(s[|s| - 1]))
  }

  lemma {:induction false} TrimStartEnds(s: string)
    ensures TrimStart(s) == "" || !IsWhite(TrimStart(s)[0])
    ensures |TrimStart(s)| <= |s|
    ensures s != "" && IsWhite(s[0]) ==> |TrimStart(s)| < |s|
  {
    if s != "" && IsWhite(s[0]) {
      TrimStartEnds(s[1..]);
    }
  }

  lemma {:induction false} TrimEndEnds(s: string)
    requires s == "" || !IsWhite(s[0])
    ensures Trimmed(TrimEnd(s)) && |TrimEnd(s)| <= |s|
    ensures s != "" && IsWhite(s[|s| - 1]) ==> |TrimEnd(s)| < |s|
    decreases |s|
  {
    if s != "" && IsWhite(s[|s| - 1]) {
      TrimEndEnds(s[..|s| - 1]);
    }
  }

  /** Trimming leaves a text with no white space at either end, and such a text as it is. */
  lemma TrimIs(s: string)
    ensures Trimmed(Trim(s))
    ensures Trim(s) == s <==> Trimmed(s)
  {
    TrimStartEnds(s);
    TrimEndEnds(TrimStart(s));
  }

  lemma TrimTwice(s: string)
    ensures Trim(Trim(s)) == Trim(s)
  {
    TrimIs(s);
    TrimIs(Trim(s));
  }

  // ---------------------------------------------------------------------------
  // What the parts come to, in values
  // ---------------------------------------------------------------------------

  predicate AllWhite(s: string) {
    forall i | 0 <= i < |s| :: IsWhite(s[i])
  }

  /** The code points with the White_Space property. */
  lemma WhiteIs(c: char)
    ensures IsWhite(c) <==>
            || c as int in {0x9, 0xA, 0xB, 0xC, 0xD, 0x20, 0x85, 0xA0, 0x1680, 0x2028, 0x2029, 0x202F, 0x205F, 0x3000}
            || 0x2000 <= c as int <= 0x200A
  {
  }

  /** Trimming cuts white space from both ends, all of it, and nothing else. */
  lemma TrimIff(s: string, t: string)
    ensures Trim(s) == t <==>
            Trimmed(t) && exists pre: string, post: string :: AllWhite(pre) && AllWhite(post) && s == pre + t + post
  {
    if Trimmed(t) {
      if pre: string, post: string :| AllWhite(pre) && AllWhite(post) && s == pre + t + post {
        TrimOf(pre, t, post);
      }
    }
    var pre, post := TrimCut(s);
  }

  lemma TrimCut(s: string) returns (pre: string, post: string)
    ensures AllWhite(pre) && AllWhite(post) && s == pre + Trim(s) + post && Trimmed(Trim(s))
  {
    TrimIs(s);
    pre := StartCut(s);
    post := EndCut(TrimStart(s));
    assert pre + (Trim(s) + post) == pre + Trim(s) + post;
  }

  lemma {:induction false} TrimOf(pre: string, t: string, post: string)
    requires AllWhite(pre) && AllWhite(post) && Trimmed(t)
    ensures Trim(pre + t + post) == t
    decreases |pre|
  {
    if pre != "" {
      assert (pre + t + post)[1..] == pre[1..] + t + post;
      TrimOf(pre[1..], t, post);
    } else {
      assert pre + t + post == t + post;
      if t == "" {
        WhiteIsCut(post);
        assert t + post == post;
      } else {
        TrimEndOf(t, post);
        assert !IsWhite((t + post)[0]);
      }
    }
  }

  lemma {:induction false} WhiteIsCut(s: string)
    requires AllWhite(s)
    ensures TrimStart(s) == ""
  {
    if s != "" {
      WhiteIsCut(s[1..]);
    }
  }

  lemma {:induction false} TrimEndOf(t: string, post: string)
    requires AllWhite(post) && t != "" && Trimmed(t)
    ensures TrimEnd(t + post) == t
    decreases |post|
  {
    if post == "" {
      assert t + post == t;
    } else {
      var last := |post| - 1;
      assert (t + post)[..|t + post| - 1] == t + post[..last];
      assert (t + post)[|t + post| - 1] == post[last];
      TrimEndOf(t, post[..last]);
    }
  }

  lemma {:induction false} StartCut(s: string) returns (pre: string)
    ensures AllWhite(pre) && s == pre + TrimStart(s)
  {
    if s == "" || !IsWhite(s[0]) {
      pre := "";
    } else {
      var rest := StartCut(s[1..]);
      pre := [s[0]] + rest;
    }
  }

  lemma {:induction false} EndCut(s: string) returns (post: string)
    ensures AllWhite(post) && s == TrimEnd(s) + post
  {
    if s == "" || !IsWhite(s[|s| - 1]) {
      post := "";
    } else {
      var rest := EndCut(s[..|s| - 1]);
      post := rest + [s[|s| - 1]];
      assert s == s[..|s| - 1] + [s[|s| - 1]];
    }
  }

  function DigitChar(n: nat): char
    requires n < 10
  {
    ('0' as int + n) as char
  }

  /** `n` in decimal. */
  function Digits(n: nat): string {
    if n < 10 then [DigitChar(n)] else Digits(n / 10) + [DigitChar(n % 10)]
  }

  function Zeros(z: nat): string {
    seq(z, _ => '0')
  }

  predicate AllDigits(s: string) {
    forall c | c in s :: IsDigit(c)
  }

  lemma {:induction false} DecimalNext(s: string, c: char)
    requires AllDigits(s) && IsDigit(c)
    ensures AllDigits(s + [c]) && Decimal(s + [c]) == Decimal(s) * 10 + (c as int - '0' as int)
  {
    assert (s + [c])[..|s|] == s && (s + [c])[|s|] == c;
  }

  /** A text of digits is some zeros and the number it stands for. */
  lemma {:induction false} DigitsOf(s: string) returns (z: nat)
    requires s != "" && AllDigits(s)
    ensures s == Zeros(z) + Digits(Decimal(s))
  {
    var shorter, c := LastDigit(s);
    if shorter == "" {
      z := 0;
      assert Digits(c as int - '0' as int) == [c];
    } else {
      var y := DigitsOf(shorter);
      z := OneDigitMore(y, Decimal(shorter), c);
    }
  }

  lemma LastDigit(s: string) returns (shorter: string, c: char)
    requires s != "" && AllDigits(s)
    ensures s == shorter + [c] && AllDigits(shorter) && IsDigit(c)
    ensures Decimal(s) == Decimal(shorter) * 10 + (c as int - '0' as int)
  {
    shorter, c := s[..|s| - 1], s[|s| - 1];
    assert c in s && forall d | d in shorter :: d in s;
  }

  lemma OneDigitMore(y: nat, d: nat, c: char) returns (z: nat)
    requires IsDigit(c)
    ensures Zeros(y) + Digits(d) + [c] == Zeros(z) + Digits(d * 10 + (c as int - '0' as int))
  {
    var digit := c as int - '0' as int;
    if d == 0 {
      z := y + 1;
      assert Zeros(y + 1) == Zeros(y) + "0" && Digits(digit) == [c];
    } else {
      z := y;
      assert (d * 10 + digit) / 10 == d && (d * 10 + digit) % 10 == digit;
      assert Digits(d * 10 + digit) == Digits(d) + [c];
    }
  }

  lemma {:induction false} DecimalOf(z: nat, n: nat)
    ensures var s := Zeros(z) + Digits(n); AllDigits(s) && Decimal(s) == n
    decreases n, z
  {
    if n >= 10 {
      DecimalOf(z, n / 10);
      DecimalNext(Zeros(z) + Digits(n / 10), DigitChar(n % 10));
      assert Zeros(z) + Digits(n) == Zeros(z) + Digits(n / 10) + [DigitChar(n % 10)];
    } else {
      ZerosAreNothing(z);
      DecimalNext(Zeros(z), DigitChar(n));
    }
  }

  lemma {:induction false} ZerosAreNothing(z: nat)
    ensures AllDigits(Zeros(z)) && Decimal(Zeros(z)) == 0
  {
    if z > 0 {
      ZerosAreNothing(z - 1);
      DecimalNext(Zeros(z - 1), '0');
      assert Zeros(z) == Zeros(z - 1) + "0";
    }
  }

  /** `segment` names position `n`: its decimal form, after any zeros and an optional plus. */
  ghost predicate Names(segment: string, n: nat) {
    n <= USIZE_MAX && exists z: nat :: segment == Zeros(z) + Digits(n) || segment == "+" + (Zeros(z) + Digits(n))
  }

  lemma ParseIndexIff(segment: string, n: nat)
    ensures ParseIndex(segment) == Some(n) <==> Names(segment, n)
  {
    if ParseIndex(segment) == Some(n) {
      var digits := if segment[0] == '+' then segment[1..] else segment;
      var z := DigitsOf(digits);
      assert segment[0] == '+' ==> segment == "+" + segment[1..];
    }
    if z: nat :| segment == Zeros(z) + Digits(n) || segment == "+" + (Zeros(z) + Digits(n)) {
      DecimalOf(z, n);
      var digits := Zeros(z) + Digits(n);
      assert digits[0] in digits && IsDigit(digits[0]);
      assert segment[0] == '+' ==> segment[1..] == digits;
    }
  }

  /** One step down: to a member of that name, or to the item at the position the segment names. */
  ghost predicate StepsTo(v: Value, segment: string, next: Value) {
    && segment != ""
    && (|| (v.Object? && segment in v.members && next == v.members[segment])
        || (v.Array? && exists n: nat | n < |v.items| :: Names(segment, n) && next == v.items[n]))
  }

  lemma DescendIff(v: Value, segment: string, next: Value)
    ensures Descend(v, segment) == Some(next) <==> StepsTo(v, segment, next)
  {
    if v.Array? {
      if ParseIndex(segment).Some? {
        ParseIndexIff(segment, ParseIndex(segment).value);
      }
      if n: nat :| n < |v.items| && Names(segment, n) && next == v.items[n] {
        ParseIndexIff(segment, n);
      }
    }
  }

  /** `v` stands at the end of the path: a walk of single steps leads to it. */
  ghost predicate Stands(root: Value, path: seq<string>, v: Value) {
    exists walk: seq<Value> :: IsWalk(root, path, v, walk)
  }

  ghost predicate IsWalk(root: Value, path: seq<string>, v: Value, walk: seq<Value>) {
    && |walk| == |path| + 1 && walk[0] == root && walk[|path|] == v
    && forall k | 0 <= k < |path| :: StepsTo(walk[k], path[k], walk[k + 1])
  }

  lemma {:induction false} ResolveIff(root: Value, path: seq<string>, v: Value)
    ensures Resolve(Some(root), path) == Some(v) <==> Stands(root, path, v)
    decreases |path|
  {
    if path == [] {
      assert root == v ==> IsWalk(root, path, v, [root]);
    } else {
      if Resolve(Some(root), path) == Some(v) {
        assert Resolve(Descend(root, path[0]), path[1..]) == Some(v);
        var next := Descend(root, path[0]).value;
        DescendIff(root, path[0], next);
        ResolveIff(next, path[1..], v);
        var walk :| IsWalk(next, path[1..], v, walk);
        WalkOn(root, path, next, v, walk);
      }
      if walk :| IsWalk(root, path, v, walk) {
        assert StepsTo(walk[0], path[0], walk[1]);
        DescendIff(root, path[0], walk[1]);
        WalkBack(root, path, v, walk);
        ResolveIff(walk[1], path[1..], v);
      }
    }
  }

  lemma WalkOn(root: Value, path: seq<string>, next: Value, v: Value, walk: seq<Value>)
    requires path != [] && StepsTo(root, path[0], next) && IsWalk(next, path[1..], v, walk)
    ensures IsWalk(root, path, v, [root] + walk)
  {
    var longer := [root] + walk;
    forall k | 0 <= k < |path| ensures StepsTo(longer[k], path[k], longer[k + 1]) {
      if k > 0 {
        assert StepsTo(walk[k - 1], path[1..][k - 1], walk[k]);
      }
    }
  }

  lemma WalkBack(root: Value, path: seq<string>, v: Value, walk: seq<Value>)
    requires path != [] && IsWalk(root, path, v, walk)
    ensures IsWalk(walk[1], path[1..], v, walk[1..])
  {
    forall k | 0 <= k < |path| - 1 ensures StepsTo(walk[1..][k], path[1..][k], walk[1..][k + 1]) {
      assert StepsTo(walk[k + 1], path[k + 1], walk[k + 2]);
    }
  }

  /** What the documentation counts as false. */
  predicate Falsy(v: Value) {
    || v == Null || v == Bool(false) || v == Num(Integral(0)) || v == Num(Fractional(0.0))
    || v == String("") || v == Array([]) || v == Object(map[])
  }

  lemma WhatStands(root: Value, path: seq<string>)
    ensures forall v: Value :: Stands(root, path, v) <==> Resolve(Some(root), path) == Some(v)
  {
    forall v: Value ensures Stands(root, path, v) <==> Resolve(Some(root), path) == Some(v) {
      ResolveIff(root, path, v);
    }
  }

  lemma TruthyIff(v: Option<Value>)
    ensures IsTruthy(v) <==> v.Some? && !Falsy(v.value)
  {
  }

  lemma ReadingMeans(expr: string, e: Expr, parse: JsonParser, state: Value)
    requires Reads(expr, e, parse)
    ensures Eval(expr, state, parse) == Means(e, state)
  {
    ReadingIsAccepted(expr, e, parse, state);
  }

  /** A bare path is true exactly when something stands there that is not on that list. */
  lemma BarePathIs(expr: string, path: seq<string>, parse: JsonParser, state: Value)
    requires Reads(expr, Truthiness(path), parse)
    ensures Eval(expr, state, parse) <==> exists v: Value :: Stands(state, path, v) && !Falsy(v)
  {
    ReadingMeans(expr, Truthiness(path), parse, state);
    TruthOf(state, path);
  }

  lemma TruthOf(state: Value, path: seq<string>)
    ensures Means(Truthiness(path), state) <==> exists v: Value :: Stands(state, path, v) && !Falsy(v)
  {
    WhatStands(state, path);
    TruthyIff(Resolve(Some(state), path));
  }

  /** A comparison is of the literal with what stands at the path, an absent value standing for null. */
  lemma ComparisonIs(expr: string, path: seq<string>, op: Op, literal: Value, parse: JsonParser, state: Value)
    requires Reads(expr, Comparison(path, op, literal), parse)
    ensures var same := Stands(state, path, literal) || (literal == Null && forall v: Value :: !Stands(state, path, v));
            Eval(expr, state, parse) <==> if op.Eq? then same else !same
  {
    ReadingMeans(expr, Comparison(path, op, literal), parse, state);
    WhatStands(state, path);
  }

  predicate ReadsTrue(parse: JsonParser) {
    parse("true") == Some(Bool(true))
  }

  lemma OpAfter(bare: string, sign: char, op: Op)
    requires !HasOp(bare) && (sign == '=' || sign == '!')
    requires op == if sign == '=' then Eq else Ne
    ensures IsFirstOp(bare + " " + [sign, '='] + " true", |bare| + 1, op)
  {
    var e := bare + " " + [sign, '='] + " true";
    forall i | 0 <= i <= |bare| ensures OpAt(e, i).None? {
      if i + 1 < |bare| {
        assert OpAt(e, i) == OpAt(bare, i);
      }
    }
  }

  lemma ReadsComparison(path: seq<string>, sign: char, op: Op, parse: JsonParser)
    requires Idents(path) && ReadsTrue(parse)
    requires var bare := "state." + Dotted(path); Trimmed(bare) && !HasOp(bare)
    requires (sign == '=' && op.Eq?) || (sign == '!' && op.Ne?)
    ensures Reads("state." + Dotted(path) + " " + [sign, '='] + " true", Comparison(path, op, Bool(true)), parse)
  {
    var bare := "state." + Dotted(path);
    var e := bare + " " + [sign, '='] + " true";
    var p := |bare| + 1;
    TrimIs(e);
    OpAfter(bare, sign, op);
    TrimOf("", bare, " ");
    assert e[..p] == "" + bare + " ";
    TrimOf(" ", "true", "");
    assert e[p + 2..] == " " + "true" + "";
  }

  lemma StandsOnce(root: Value, path: seq<string>, v: Value, w: Value)
    requires Stands(root, path, v) && Stands(root, path, w)
    ensures v == w
  {
    ResolveIff(root, path, v);
    ResolveIff(root, path, w);
  }

  lemma BareBoolean(path: seq<string>, parse: JsonParser, state: Value, b: bool)
    requires Idents(path) && Stands(state, path, Bool(b))
    requires var bare := "state." + Dotted(path); Trimmed(bare) && !HasOp(bare)
    ensures Eval("state." + Dotted(path), state, parse) == b
  {
    var bare := "state." + Dotted(path);
    TrimIs(bare);
    BarePathIs(bare, path, parse, state);
    if v: Value :| Stands(state, path, v) && !Falsy(v) {
      StandsOnce(state, path, v, Bool(b));
    }
  }

  lemma ComparedBoolean(path: seq<string>, sign: char, op: Op, parse: JsonParser, state: Value, b: bool)
    requires Idents(path) && ReadsTrue(parse) && Stands(state, path, Bool(b))
    requires var bare := "state." + Dotted(path); Trimmed(bare) && !HasOp(bare)
    requires (sign == '=' && op.Eq?) || (sign == '!' && op.Ne?)
    ensures Eval("state." + Dotted(path) + " " + [sign, '='] + " true", state, parse) == if op.Eq? then b else !b
  {
    ReadsComparison(path, sign, op, parse);
    ComparisonIs("state." + Dotted(path) + " " + [sign, '='] + " true", path, op, Bool(true), parse, state);
    if Stands(state, path, Bool(true)) {
      StandsOnce(state, path, Bool(true), Bool(b));
    }
  }

  /** Wherever a boolean stands, a bare path, its comparison with `true` and the negated comparison agree. */
  lemma BooleansAgree(path: seq<string>, parse: JsonParser, state: Value, b: bool)
    requires Idents(path) && ReadsTrue(parse) && Stands(state, path, Bool(b))
    requires var bare := "state." + Dotted(path); Trimmed(bare) && !HasOp(bare)
    ensures var bare := "state." + Dotted(path);
            && Eval(bare, state, parse) == b
            && Eval(bare + " == true", state, parse) == b
            && Eval(bare + " != true", state, parse) == !b
  {
    var bare := "state." + Dotted(path);
    BareBoolean(path, parse, state, b);
    ComparedBoolean(path, '=', Eq, parse, state, b);
    ComparedBoolean(path, '!', Ne, parse, state, b);
    Spelled(bare);
  }

  lemma Spelled(bare: string)
    ensures bare + " == true" == bare + " " + ['=', '='] + " true"
    ensures bare + " != true" == bare + " " + ['!', '='] + " true"
  {
  }

  // ---------------------------------------------------------------------------
  // Rejected and true
  // ---------------------------------------------------------------------------

  /** A comparison whose path has an empty segment and is otherwise well formed, and which compares nothing
      with null, or says that nothing differs from something. */
  predicate VacuouslyTrue(expr: string, parse: JsonParser) {
    var t := Trim(expr);
    var found := FirstOp(t);
    && found.Some?
    && var (p, op) := found.value;
    && p + 2 <= |t|
    && var path := StripState(Trim(t[..p]));
    && path.Some? && path.value != "" && "" in Split(path.value)
    && var literal := parse(Trim(t[p + 2..]));
    && literal.Some?
    && (op.Eq? <==> literal.value == Null)
  }

  /** An expression registration would refuse evaluates to true in exactly that case, whatever the state. */
  lemma RejectedTrueIff(expr: string, parse: JsonParser, state: Value)
    ensures !Validate(expr, parse) && Eval(expr, state, parse) <==> VacuouslyTrue(expr, parse)
  {
    var t := Trim(expr);
    match FirstOp(t)
    case Some((p, op)) =>
      var path := StripState(Trim(t[..p]));
      if path.Some? && "" in Split(path.value) {
        EmptySegmentFindsNothing(Some(state), Split(path.value));
      }
    case None =>
      var path := StripState(t);
      if path.Some? && "" in Split(path.value) {
        EmptySegmentFindsNothing(Some(state), Split(path.value));
      }
  }

  // ---------------------------------------------------------------------------
  // Negation
  // ---------------------------------------------------------------------------

  function WithOp(s: string, p: nat, op: Op): string
    requires p < |s|
  {
    s[p := if op.Eq? then '=' else '!']
  }

  /** Writing `!=` for the first `==` leaves the operator first; writing `==` for the first `!=` does exactly
      when the character before it is neither of the two that would make an earlier operator. */
  lemma SwappedOpIsFirstIff(s: string, p: nat, op: Op, other: Op)
    requires IsFirstOp(s, p, op) && p + 1 < |s|
    ensures IsFirstOp(WithOp(s, p, other), p, other) <==>
            other.Ne? || op.Eq? || p == 0 || (s[p - 1] != '!' && s[p - 1] != '=')
  {
    var swapped := WithOp(s, p, other);
    assert OpAt(swapped, p) == Some(other);
    forall i | 0 <= i < p - 1 ensures OpAt(swapped, i) == OpAt(s, i) {}
    if p > 0 {
      assert OpAt(s, p - 1).None?;
      assert OpAt(swapped, p - 1).None? <==> other.Ne? || op.Eq? || (s[p - 1] != '!' && s[p - 1] != '=');
    }
  }

  /** On an accepted comparison the other operator, written in its place, is accepted too and evaluates to
      the exact negation in every state; from `!=` to `==` unless the character before makes an earlier one. */
  lemma {:induction false} SwapNegates(e: string, p: nat, op: Op, parse: JsonParser, state: Value)
    requires Trimmed(e) && IsFirstOp(e, p, op) && Validate(e, parse)
    requires op.Eq? || p == 0 || (e[p - 1] != '!' && e[p - 1] != '=')
    ensures var swapped := WithOp(e, p, if op.Eq? then Ne else Eq);
            Validate(swapped, parse) && Eval(swapped, state, parse) == !Eval(e, state, parse)
  {
    var other := if op.Eq? then Ne else Eq;
    var swapped := WithOp(e, p, other);
    TrimIs(e);
    TrimIs(swapped);
    SwappedOpIsFirstIff(e, p, op, other);
    FirstOpIsUnique(e, p, op);
    FirstOpIsUnique(swapped, p, other);
    assert swapped[..p] == e[..p] && swapped[p + 2..] == e[p + 2..];
  }

  // ---------------------------------------------------------------------------
  // Where the documentation says less
  // ---------------------------------------------------------------------------

  /** The documentation reads a segment as an array index when it is all digits; a leading plus is read too. */
  lemma PlusIsAnIndex(items: seq<Value>)
    requires |items| > 1
    ensures Descend(Array(items), "+1") == Some(items[1]) == Descend(Array(items), "1")
  {
    assert "+1"[1..] == "1";
    assert Decimal("1") == Decimal(""[..]) * 10 + 1 by {
      assert "1"[..0] == "";
    }
  }
}
