/** Expanding `${NAME}` placeholders (runtime/api/src/secrets.rs). */
module Secrets {
  import opened Wrappers
  import opened Json

  type Backend = string -> Option<string>

  // ---------------------------------------------------------------------------
  // A text as pieces
  // ---------------------------------------------------------------------------

  predicate OpensAt(s: string, i: int) {
    0 <= i && i + 1 < |s| && s[i] == '$' && s[i + 1] == '{'
  }

  /** Position of the first `${` from `i` on, or the length. */
  function FindOpenFrom(s: string, i: nat): (k: nat)
    requires i <= |s|
    ensures i <= k <= |s|
    ensures k < |s| ==> OpensAt(s, k)
    ensures forall j | i <= j < k :: !OpensAt(s, j)
    decreases |s| - i
  {
    if i == |s| || OpensAt(s, i) then i else FindOpenFrom(s, i + 1)
  }

  /** Position of the first `}` from `i` on, or the length. */
  function FindCloseFrom(s: string, i: nat): (k: nat)
    requires i <= |s|
    ensures i <= k <= |s|
    ensures k < |s| ==> s[k] == '}'
    ensures forall j | i <= j < k :: s[j] != '}'
    decreases |s| - i
  {
    if i == |s| || s[i] == '}' then i else FindCloseFrom(s, i + 1)
  }

  /** The first placeholder: where its `${` stands and where its `}` does. */
  function FirstPlaceholder(s: string): (cut: Option<(nat, nat)>)
    ensures cut.Some? ==> IsPlaceholder(s, cut.value.0, cut.value.1)
  {
    var open := FindOpenFrom(s, 0);
    var close := FindCloseFrom(s, open);
    if close == |s| then None else Some((open, close))
  }

  predicate IsPlaceholder(s: string, open: nat, close: nat) {
    OpensAt(s, open) && open + 2 <= close < |s| && s[close] == '}'
  }

  /** It is the first, up to the nearest brace, and none means there is none anywhere. */
  lemma FirstIsFirst(s: string, open: nat, close: nat)
    requires IsPlaceholder(s, open, close)
    ensures var cut := FirstPlaceholder(s);
            cut.Some? && cut.value.0 <= open && (cut.value.0 == open ==> cut.value.1 <= close)
  {
    var first := FindOpenFrom(s, 0);
    assert first <= open;
    assert FindCloseFrom(s, first) <= close;
  }

  /** A text cut at its placeholders. */
  datatype Pieces = End(text: string) | Cut(text: string, name: string, rest: Pieces)

  function Placeholder(name: string): string {
    "${" + name + "}"
  }

  /** One pass: plain text up to the first `${`, the placeholder up to its next `}`, and so on behind it. */
  function Parse(s: string): Pieces
    decreases |s|
  {
    match FirstPlaceholder(s)
    case None => End(s)
    case Some((open, close)) => Cut(s[..open], s[open + 2..close], Parse(s[close + 1..]))
  }

  function Joined(pieces: Pieces): string {
    match pieces
    case End(text) => text
    case Cut(text, name, rest) => text + (Placeholder(name) + Joined(rest))
  }

  function Filled(name: string, get: Backend): string {
    if get(name).Some? then get(name).value else Placeholder(name)
  }

  /** Every piece of the original, in its place: a value stands as it is and is not read again. */
  function Substituted(pieces: Pieces, get: Backend): string {
    match pieces
    case End(text) => text
    case Cut(text, name, rest) => text + (Filled(name, get) + Substituted(rest, get))
  }

  function Names(pieces: Pieces): set<string> {
    match pieces
    case End(_) => {}
    case Cut(_, name, rest) => {name} + Names(rest)
  }

  lemma CutJoins(s: string, open: nat, close: nat)
    requires IsPlaceholder(s, open, close)
    ensures s == s[..open] + (Placeholder(s[open + 2..close]) + s[close + 1..])
  {
    assert s[open..close + 1] == "${" + s[open + 2..close] + "}";
    assert s == s[..open] + (s[open..close + 1] + s[close + 1..]);
  }

  lemma CutJoined(s: string, open: nat, close: nat, rest: Pieces)
    requires IsPlaceholder(s, open, close) && Joined(rest) == s[close + 1..]
    ensures Joined(Cut(s[..open], s[open + 2..close], rest)) == s
  {
    CutJoins(s, open, close);
  }

  /** Cutting loses nothing. */
  lemma {:induction false} PiecesJoin(s: string)
    ensures Joined(Parse(s)) == s
    decreases |s|
  {
    var cut := FirstPlaceholder(s);
    if cut.Some? {
      var (open, close) := cut.value;
      var rest := s[close + 1..];
      PiecesJoin(rest);
      ParseCuts(s, open, close);
      CutJoined(s, open, close, Parse(rest));
    }
  }

  lemma ParseCuts(s: string, open: nat, close: nat)
    requires FirstPlaceholder(s) == Some((open, close))
    ensures Parse(s) == Cut(s[..open], s[open + 2..close], Parse(s[close + 1..]))
  {
  }

  // ---------------------------------------------------------------------------
  // The loop
  // ---------------------------------------------------------------------------

  /** The loop rewrites its own buffer and may grow it, yet it computes the one-pass substitution of the
      original: what it has inserted lies before `pos`, and what is ahead is a suffix of the original. */
  method Expand(s: string, get: Backend) returns (result: string)
    ensures result == Substituted(Parse(s), get)
  {
    result := s;
    var pos := 0;
    ghost var target := Substituted(Parse(s), get);
    var more := true;
    StartsAhead(s, get);
    while more
      invariant if more then Ahead(result, pos, get, target) else result == target
      decreases more, |result| - pos
    {
      result, pos, more := Turn(result, pos, get, target);
    }
  }

  /** What is done, followed by what the rest stands for, is the result; unfolded only where named. */
  ghost predicate Ahead(result: string, pos: int, get: Backend, target: string) {
    && 0 <= pos <= |result|
    && forall rest | rest == result[pos..] :: result[..pos] + Substituted(Parse(rest), get) == target
  }

  lemma StartsAhead(s: string, get: Backend)
    ensures Ahead(s, 0, get, Substituted(Parse(s), get))
  {
    assert s[0..] == s && s[..0] == "";
  }

  /** One turn: fill or skip the first placeholder ahead, or find that there is none. */
  method Turn(before: string, from: int, get: Backend, ghost target: string)
    returns (result: string, pos: int, more: bool)
    requires Ahead(before, from, get, target)
    ensures if more then Ahead(result, pos, get, target) && |result| - pos < |before| - from else result == target
  {
    var ahead := before[from..];
    assert before[..from] + Substituted(Parse(ahead), get) == target;
    var cut := FirstPlaceholder(ahead);
    if cut.None? {
      assert before == before[..from] + ahead;
      return before, from, false;
    }
    var (start, end) := cut.value;
    result, pos, more := Replace(before, from, start, end, get);
    StepKeeps(before, from, start, end, get, result, pos);
  }

  lemma Shift(s: string, from: nat, start: nat, end: nat)
    requires from <= |s| && IsPlaceholder(s[from..], start, end)
    ensures IsPlaceholder(s, from + start, from + end)
  {
    var ahead := s[from..];
    assert ahead[start] == s[from + start] && ahead[start + 1] == s[from + start + 1] && ahead[end] == s[from + end];
  }

  lemma KeepPlaceholder(s: string, open: nat, close: nat)
    requires IsPlaceholder(s, open, close)
    ensures s == s[..open] + Placeholder(s[open + 2..close]) + s[close + 1..]
    ensures close + 1 == open + |Placeholder(s[open + 2..close])|
  {
    CutJoins(s, open, close);
    assert s[..open] + (Placeholder(s[open + 2..close]) + s[close + 1..])
        == s[..open] + Placeholder(s[open + 2..close]) + s[close + 1..];
  }

  method Replace(before: string, from: nat, start: nat, end: nat, get: Backend)
    returns (result: string, pos: nat, more: bool)
    requires from <= |before| && IsPlaceholder(before[from..], start, end)
    ensures var filled := Filled(before[from + start + 2..from + end], get);
            && result == before[..from + start] + filled + before[from + end + 1..]
            && pos == from + start + |filled|
    ensures more
  {
    var absStart, absEnd := from + start, from + end;
    Shift(before, from, start, end);
    var name := before[absStart + 2..absEnd];
    more := true;
    if get(name).Some? {
      var value := get(name).value;
      result := before[..absStart] + value + before[absEnd + 1..];
      pos := absStart + |value|;
      assert Filled(name, get) == value;
    } else {
      result := before;
      pos := absEnd + 1;
      assert Filled(name, get) == Placeholder(name);
      KeepPlaceholder(before, absStart, absEnd);
    }
  }

  /** One turn of the loop: the first placeholder ahead, filled or left, joins what is done. */
  lemma StepKeeps(before: string, pos: nat, start: nat, end: nat, get: Backend, after: string, next: nat)
    requires pos <= |before| && FirstPlaceholder(before[pos..]) == Some((start, end))
    requires var filled := Filled(before[pos + start + 2..pos + end], get);
             after == before[..pos + start] + filled + before[pos + end + 1..] && next == pos + start + |filled|
    ensures next <= |after| && |after| - next < |before| - pos
    ensures after[..next] + Substituted(Parse(after[next..]), get)
         == before[..pos] + Substituted(Parse(before[pos..]), get)
  {
    var ahead := before[pos..];
    ParseCuts(ahead, start, end);
    var name := ahead[start + 2..end];
    assert name == before[pos + start + 2..pos + end];
    Splice(before, pos, start, end, Filled(name, get));
    Associates(before[..pos], ahead[..start], Filled(name, get), Substituted(Parse(ahead[end + 1..]), get));
  }

  lemma Associates(a: string, b: string, c: string, d: string)
    ensures (a + (b + c)) + d == a + (b + (c + d))
  {
  }

  /** Replacing `ahead[start..end + 1]` and moving `pos` behind what replaced it. */
  lemma Splice(result: string, pos: nat, start: nat, end: nat, value: string)
    requires pos <= |result| && start <= end < |result| - pos
    ensures var ahead := result[pos..];
            var spliced := result[..pos + start] + value + result[pos + end + 1..];
            && spliced[..pos + start + |value|] == result[..pos] + (ahead[..start] + value)
            && spliced[pos + start + |value|..] == ahead[end + 1..]
  {
  }

  predicate OpensNowhere(s: string) {
    forall i | 0 <= i < |s| :: !OpensAt(s, i)
  }

  lemma FirstOf(pre: string, name: string, post: string)
    requires OpensNowhere(pre) && '}' !in name
    ensures FirstPlaceholder(pre + "${" + name + "}" + post) == Some((|pre|, |pre| + 2 + |name|))
  {
    var s := pre + "${" + name + "}" + post;
    forall i | 0 <= i < |pre| ensures !OpensAt(s, i) {
      if i + 1 < |pre| {
        assert s[i] == pre[i] && s[i + 1] == pre[i + 1] && !OpensAt(pre, i);
      }
    }
    assert OpensAt(s, |pre|);
    assert FindOpenFrom(s, 0) == |pre|;
    forall i | |pre| <= i < |pre| + 2 + |name| ensures s[i] != '}' {
      if i >= |pre| + 2 {
        assert s[i] == name[i - |pre| - 2] && name[i - |pre| - 2] in name;
      }
    }
    assert s[|pre| + 2 + |name|] == '}';
    assert FindCloseFrom(s, |pre|) == |pre| + 2 + |name|;
  }

  /** The first placeholder of a text is replaced by what its name resolves to, and stays as it is written when
      the name resolves to nothing; the rest is expanded on its own, and the value is not read again. */
  lemma FirstIsFilled(pre: string, name: string, post: string, get: Backend)
    requires OpensNowhere(pre) && '}' !in name
    ensures Substituted(Parse(pre + "${" + name + "}" + post), get)
            == pre + ((match get(name) case Some(value) => value case None => "${" + name + "}")
                      + Substituted(Parse(post), get))
  {
    var s := pre + "${" + name + "}" + post;
    FirstOf(pre, name, post);
    ParseCuts(s, |pre|, |pre| + 2 + |name|);
    assert s[..|pre|] == pre && s[|pre| + 2..|pre| + 2 + |name|] == name && s[|pre| + 2 + |name| + 1..] == post;
  }

  /** Only the names that occur matter. */
  lemma {:induction false} OnlyOccurringNamesMatter(pieces: Pieces, get: Backend, other: Backend)
    requires forall name | name in Names(pieces) :: get(name) == other(name)
    ensures Substituted(pieces, get) == Substituted(pieces, other)
  {
    if pieces.Cut? {
      OnlyOccurringNamesMatter(pieces.rest, get, other);
    }
  }

  lemma {:induction false} UnresolvedJoin(pieces: Pieces, get: Backend)
    requires forall name | name in Names(pieces) :: get(name).None?
    ensures Substituted(pieces, get) == Joined(pieces)
  {
    if pieces.Cut? {
      UnresolvedJoin(pieces.rest, get);
    }
  }

  /** With nothing to resolve nothing changes: unresolved placeholders survive letter by letter. */
  lemma {:induction false} UnresolvedSurvive(s: string, get: Backend)
    requires forall name | name in Names(Parse(s)) :: get(name).None?
    ensures Substituted(Parse(s), get) == s
  {
    UnresolvedJoin(Parse(s), get);
    PiecesJoin(s);
  }

  // ---------------------------------------------------------------------------
  // JSON
  // ---------------------------------------------------------------------------

  /** A place in a document: a member's name or an item's position at each level. */
  datatype Step = Key(name: string) | Index(position: nat)

  function At(v: Value, path: seq<Step>): Option<Value>
    decreases |path|
  {
    if path == [] then Some(v)
    else
      match (v, path[0])
      case (Array(items), Index(k)) => if k < |items| then At(items[k], path[1..]) else None
      case (Object(members), Key(name)) => if name in members then At(members[name], path[1..]) else None
      case _ => None
  }

  function ExpandJson(v: Value, get: Backend): Value {
    match v
    case String(s) => String(Substituted(Parse(s), get))
    case Array(items) => Array(seq(|items|, i requires 0 <= i < |items| => ExpandJson(items[i], get)))
    case Object(members) => Object(map name | name in members :: ExpandJson(members[name], get))
    case _ => v
  }

  /** So every string of the document is expanded, and every other value is as it was. */
  lemma LeavesAreExpanded(v: Value, get: Backend, path: seq<Step>)
    requires At(v, path).Some?
    ensures var leaf := At(v, path).value;
            && (leaf.String? ==> At(ExpandJson(v, get), path) == Some(String(Substituted(Parse(leaf.s), get))))
            && (leaf.Null? || leaf.Bool? || leaf.Num? ==> At(ExpandJson(v, get), path) == Some(leaf))
  {
    ExpandKeepsPaths(v, get, path);
  }

  /** The document keeps its shape and its names: at every path stands what stood there, with a string
      expanded and anything else in the same form. */
  lemma {:induction false} ExpandKeepsPaths(v: Value, get: Backend, path: seq<Step>)
    ensures At(ExpandJson(v, get), path)
         == if At(v, path).Some? then Some(ExpandJson(At(v, path).value, get)) else None
    decreases |path|
  {
    if path != [] {
      match (v, path[0])
      case (Array(items), Index(k)) => if k < |items| { ExpandKeepsPaths(items[k], get, path[1..]); }
      case (Object(members), Key(name)) => if name in members { ExpandKeepsPaths(members[name], get, path[1..]); }
      case _ =>
    }
  }
}
