/** `_largest_balanced_json` of src/aether_forge/planner.py: recovering a JSON value from prose. */
module JsonScanner {
  import opened Results

  // ----- the reference definition: a lexer and a clamped depth counter -----

  datatype Lex = Outside | Inside | Escaped

  /** Where the scan stands between two characters. */
  datatype Point = Point(lex: Lex, depth: nat)

  const START := Point(Outside, 0)

  predicate IsOpen(c: char) {
    c == '{' || c == '['
  }

  predicate IsClose(c: char) {
    c == '}' || c == ']'
  }

  predicate SameKind(opener: char, closer: char) {
    (opener == '{' && closer == '}') || (opener == '[' && closer == ']')
  }

  function LexStep(lex: Lex, c: char): Lex {
    match lex
    case Escaped => Inside
    case Inside => if c == '\\' then Escaped else if c == '"' then Outside else Inside
    case Outside => if c == '"' then Inside else Outside
  }

  function Step(p: Point, c: char): Point {
    Point(LexStep(p.lex, c),
          if p.lex != Outside then p.depth
          else if IsOpen(c) then p.depth + 1
          else if IsClose(c) && p.depth > 0 then p.depth - 1
          else p.depth)
  }

  function Run(p: Point, text: string): Point {
    if text == "" then p else Step(Run(p, text[..|text| - 1]), text[|text| - 1])
  }

  /** The point reached after `i` characters. */
  function At(text: string, i: nat): Point
    requires i <= |text|
  {
    Run(START, text[..i])
  }

  /** `text[s..e]` opens at depth 0 outside strings, first returns to depth 0 at its end, and ends
      with the closer of its opener's kind. */
  ghost predicate Span(text: string, s: nat, e: nat) {
    && s < e <= |text|
    && At(text, s) == START
    && IsOpen(text[s])
    && (forall k :: s < k < e ==> At(text, k).depth > 0)
    && At(text, e).depth == 0
    && (if text[s] == '{' then text[e - 1] == '}' else text[e - 1] == ']')
  }

  /** No span ending at or before `limit` is longer than `s..e`, or as long and earlier. */
  ghost predicate BestUpTo(text: string, s: nat, e: nat, limit: nat) {
    && Span(text, s, e) && e <= limit
    && (forall s': nat, e': nat :: Span(text, s', e') && e' <= limit ==>
          e' - s' < e - s || (e' - s' == e - s && s <= s'))
  }

  /** The specification: the earliest longest span, or nothing when there is no span. */
  ghost predicate IsLargest(text: string, r: Option<string>) {
    match r
    case None => forall s: nat, e: nat :: !Span(text, s, e)
    case Some(value) => exists s: nat, e: nat :: BestUpTo(text, s, e, |text|) && value == text[s..e]
  }

  lemma AtStep(text: string, i: nat)
    requires i < |text|
    ensures At(text, i + 1) == Step(At(text, i), text[i])
  {
    assert text[..i + 1][..i] == text[..i];
  }

  /** A span is determined by its end. */
  lemma SpanByEnd(text: string, s: nat, t: nat, e: nat)
    requires Span(text, s, e) && Span(text, t, e)
    ensures s == t
  {
  }

  lemma BestDominates(text: string, s: nat, e: nat, t: nat, f: nat)
    requires BestUpTo(text, s, e, |text|) && Span(text, t, f) && f <= |text|
    ensures f - t < e - s || (f - t == e - s && s <= t)
  {
  }

  lemma BestIsUnique(text: string, s: nat, e: nat, t: nat, f: nat)
    requires BestUpTo(text, s, e, |text|) && BestUpTo(text, t, f, |text|)
    ensures s == t && e == f
  {
    BestDominates(text, s, e, t, f);
    BestDominates(text, t, f, s, e);
  }

  /** The specification has one solution. */
  lemma LargestIsUnique(text: string, q: Option<string>, r: Option<string>)
    requires IsLargest(text, q) && IsLargest(text, r)
    ensures q == r
  {
    if q.Some? && r.Some? {
      var s: nat, e: nat :| BestUpTo(text, s, e, |text|) && q.value == text[s..e];
      var t: nat, f: nat :| BestUpTo(text, t, f, |text|) && r.value == text[t..f];
      BestIsUnique(text, s, e, t, f);
    }
  }

  // ----- the scanner -----

  /** What the explicit stack knows: its height is the clamped depth, and its bottom entry is the
      opener that left depth 0 last. */
  ghost predicate StackAgrees(text: string, i: nat, stack: seq<(char, nat)>)
    requires i <= |text|
  {
    && |stack| == At(text, i).depth
    && (stack != [] ==>
          var s := stack[0].1;
          && s < i && stack[0].0 == text[s] && IsOpen(text[s])
          && At(text, s) == START
          && (forall k :: s < k <= i ==> At(text, k).depth > 0))
  }

  ghost predicate BestAgrees(text: string, i: nat, best: Option<(nat, nat)>) {
    match best
    case None => forall s: nat, e: nat :: Span(text, s, e) ==> e > i
    case Some((s, e)) => BestUpTo(text, s, e, i)
  }

  /** Nothing ends at `i + 1` unless the stack was down to one entry and its kind matches. */
  lemma SpanNeedsBottom(text: string, i: nat, stack: seq<(char, nat)>, s: nat)
    requires i < |text| && StackAgrees(text, i, stack) && Span(text, s, i + 1)
    ensures At(text, i).lex == Outside && IsClose(text[i])
    ensures |stack| == 1 && stack[0].1 == s && SameKind(stack[0].0, text[i])
  {
    AtStep(text, i);
    assert At(text, i).depth == 1;
  }

  lemma NoSpanEndsHere(text: string, i: nat, stack: seq<(char, nat)>, best: Option<(nat, nat)>)
    requires i < |text| && StackAgrees(text, i, stack) && BestAgrees(text, i, best)
    requires At(text, i).lex != Outside || !IsClose(text[i]) || |stack| != 1 || !SameKind(stack[0].0, text[i])
    ensures BestAgrees(text, i + 1, best)
  {
    var e := i + 1;
    forall s: nat | Span(text, s, e) ensures false {
      SpanNeedsBottom(text, i, stack, s);
    }
  }

  lemma SpanEndsHere(text: string, i: nat, stack: seq<(char, nat)>, best: Option<(nat, nat)>)
    requires i < |text| && StackAgrees(text, i, stack) && BestAgrees(text, i, best)
    requires At(text, i).lex == Outside && IsClose(text[i]) && |stack| == 1 && SameKind(stack[0].0, text[i])
    ensures Span(text, stack[0].1, i + 1)
    ensures var s := stack[0].1;
      BestAgrees(text, i + 1,
                 if best.None? || i + 1 - s > best.value.1 - best.value.0 then Some((s, i + 1)) else best)
  {
    AtStep(text, i);
    var s := stack[0].1;
    assert Span(text, s, i + 1);
    var e := i + 1;
    forall t: nat | Span(text, t, e) ensures t == s {
      SpanByEnd(text, s, t, e);
    }
  }

  /** `_largest_balanced_json`. */
  method LargestBalancedJson(text: string) returns (r: Option<string>)
    ensures IsLargest(text, r)
  {
    var best: Option<(nat, nat)> := None;
    var stack: seq<(char, nat)> := [];
    var inString, escape := false, false;
    for index := 0 to |text|
      invariant inString == (At(text, index).lex != Outside)
      invariant escape == (At(text, index).lex == Escaped)
      invariant StackAgrees(text, index, stack)
      invariant BestAgrees(text, index, best)
    {
      var ch := text[index];
      AtStep(text, index);
      if inString {
        NoSpanEndsHere(text, index, stack, best);
        if escape {
          escape := false;
        } else if ch == '\\' {
          escape := true;
        } else if ch == '"' {
          inString := false;
        }
        continue;
      }
      if ch == '"' {
        NoSpanEndsHere(text, index, stack, best);
        inString := true;
        continue;
      }
      if IsOpen(ch) {
        NoSpanEndsHere(text, index, stack, best);
        stack := stack + [(ch, index)];
      } else if IsClose(ch) {
        if stack == [] {
          NoSpanEndsHere(text, index, stack, best);
          continue;
        }
        ghost var before := stack;
        var (opener, openerIndex) := stack[|stack| - 1];
        stack := stack[..|stack| - 1];
        if !SameKind(opener, ch) {
          NoSpanEndsHere(text, index, before, best);
          continue;
        }
        if stack == [] {
          SpanEndsHere(text, index, before, best);
          if best.None? || index + 1 - openerIndex > best.value.1 - best.value.0 {
            best := Some((openerIndex, index + 1));
          }
        } else {
          NoSpanEndsHere(text, index, before, best);
        }
      } else {
        NoSpanEndsHere(text, index, stack, best);
      }
    }
    assert forall s: nat, e: nat :: Span(text, s, e) ==> e <= |text|;
    r := if best.None? then None else Some(text[best.value.0..best.value.1]);
  }

  // ----- printed JSON -----

  /** One element of a string body in section 7 of RFC 8259: an unescaped character, or a reverse
      solidus and the character after it (`\u` is followed by four unescaped hexadecimal digits). */
  datatype Unit = Plain(c: char) | Escape(c: char)

  /** A JSON text as written, with the white space and commas or colons between its parts. */
  datatype Json =
    | Scalar(text: string)
    | Text(units: seq<Unit>)
    | Array(items: seq<Item>, tail: string)
    | Object(members: seq<Member>, tail: string)

  datatype Item = Item(gap: string, value: Json)

  datatype Member = Member(gap: string, key: seq<Unit>, colon: string, value: Json)

  /** Text without quotes and brackets. */
  ghost predicate Inert(t: string) {
    forall c :: c in t ==> c != '"' && !IsOpen(c) && !IsClose(c)
  }

  ghost predicate ValidUnits(units: seq<Unit>) {
    forall u :: u in units && u.Plain? ==> u.c != '"' && u.c != '\\'
  }

  ghost predicate Valid(v: Json) {
    match v
    case Scalar(text) => Inert(text)
    case Text(units) => ValidUnits(units)
    case Array(items, tail) => Inert(tail) && forall x :: x in items ==> Inert(x.gap) && Valid(x.value)
    case Object(members, tail) =>
      && Inert(tail)
      && forall m :: m in members ==> Inert(m.gap) && ValidUnits(m.key) && Inert(m.colon) && Valid(m.value)
  }

  function PrintUnits(units: seq<Unit>): string {
    if units == [] then ""
    else (match units[0] case Plain(c) => [c] case Escape(c) => ['\\', c]) + PrintUnits(units[1..])
  }

  function Quoted(units: seq<Unit>): string {
    ['"'] + PrintUnits(units) + ['"']
  }

  function Print(v: Json): string
    decreases v, 0
  {
    match v
    case Scalar(text) => text
    case Text(units) => Quoted(units)
    case Array(items, tail) => ['['] + (PrintItems(items) + tail) + [']']
    case Object(members, tail) => ['{'] + (PrintMembers(members) + tail) + ['}']
  }

  function PrintItems(items: seq<Item>): string
    decreases items, 0
  {
    if items == [] then "" else items[0].gap + Print(items[0].value) + PrintItems(items[1..])
  }

  function PrintMembers(members: seq<Member>): string
    decreases members, 0
  {
    if members == [] then ""
    else
      var m := members[0];
      m.gap + Quoted(m.key) + m.colon + Print(m.value) + PrintMembers(members[1..])
  }

  // ----- scanning printed JSON -----

  /** Reading `t` at `p` never goes below the depth of `p`, and ends where it began. */
  ghost predicate Level(p: Point, t: string) {
    && Run(p, t) == p
    && forall k :: 0 <= k <= |t| ==> Run(p, t[..k]).depth >= p.depth
  }

  lemma {:induction false} RunConcat(p: Point, a: string, b: string)
    ensures Run(p, a + b) == Run(Run(p, a), b)
  {
    if b == "" {
      assert a + b == a;
    } else {
      var t := a + b;
      assert t[..|t| - 1] == a + b[..|b| - 1];
      RunConcat(p, a, b[..|b| - 1]);
    }
  }

  lemma LevelConcat(p: Point, a: string, b: string)
    requires Level(p, a) && Level(p, b)
    ensures Level(p, a + b)
  {
    RunConcat(p, a, b);
    forall k | 0 <= k <= |a + b| ensures Run(p, (a + b)[..k]).depth >= p.depth {
      if k <= |a| {
        assert (a + b)[..k] == a[..k];
      } else {
        assert (a + b)[..k] == a + b[..k - |a|];
        RunConcat(p, a, b[..k - |a|]);
      }
    }
  }

  lemma {:induction false} InertRun(p: Point, t: string)
    requires p.lex == Outside && Inert(t)
    ensures Run(p, t) == p
  {
    if t != "" {
      assert t[|t| - 1] in t;
      InertRun(p, t[..|t| - 1]);
    }
  }

  lemma InertLevel(p: Point, t: string)
    requires p.lex == Outside && Inert(t)
    ensures Level(p, t)
  {
    InertRun(p, t);
    forall k | 0 <= k <= |t| ensures Run(p, t[..k]).depth >= p.depth {
      InertRun(p, t[..k]);
    }
  }

  lemma RunOne(p: Point, c: char)
    ensures Run(p, [c]) == Step(p, c)
  {
    assert [c][..0] == "";
  }

  lemma UnitLevel(p: Point, u: Unit)
    requires p.lex == Inside && (u.Plain? ==> u.c != '"' && u.c != '\\')
    ensures Level(p, match u case Plain(c) => [c] case Escape(c) => ['\\', c])
  {
    match u
    case Plain(c) =>
      RunOne(p, c);
      assert [c][..0] == "" && [c][..1] == [c];
    case Escape(c) =>
      var t := ['\\', c];
      RunOne(p, '\\');
      assert t[..1] == ['\\'] && t[..0] == "" && t[..2] == t;
  }

  lemma {:induction false} UnitsLevel(p: Point, units: seq<Unit>)
    requires p.lex == Inside && ValidUnits(units)
    ensures Level(p, PrintUnits(units))
  {
    if units == [] {
      assert ""[..0] == "";
    } else {
      UnitLevel(p, units[0]);
      UnitsLevel(p, units[1..]);
      LevelConcat(p, match units[0] case Plain(c) => [c] case Escape(c) => ['\\', c], PrintUnits(units[1..]));
    }
  }

  /** An opening character, a body that stays level one state further in, a closing character. */
  lemma Bracketed(p: Point, open: char, body: string, close: char)
    requires Level(Step(p, open), body)
    requires Step(p, open).depth >= p.depth && Step(Step(p, open), close) == p
    ensures Level(p, [open] + body + [close])
    ensures forall k :: 0 < k < |body| + 2 ==>
      Run(p, ([open] + body + [close])[..k]).depth >= Step(p, open).depth
  {
    var t := [open] + body + [close];
    forall k | 0 < k < |t| ensures Run(p, t[..k]).depth >= Step(p, open).depth {
      assert t[..k] == [open] + body[..k - 1];
      RunConcat(p, [open], body[..k - 1]);
      RunOne(p, open);
    }
    assert t[..|t| - 1] == [open] + body;
    RunConcat(p, [open], body);
    RunOne(p, open);
    assert t[..0] == "" && t[..|t|] == t;
  }

  lemma QuotedLevel(p: Point, units: seq<Unit>)
    requires p.lex == Outside && ValidUnits(units)
    ensures Level(p, Quoted(units))
  {
    UnitsLevel(Point(Inside, p.depth), units);
    Bracketed(p, '"', PrintUnits(units), '"');
  }

  lemma {:induction false} PrintLevel(p: Point, v: Json)
    requires p.lex == Outside && Valid(v)
    ensures Level(p, Print(v))
    ensures v.Array? || v.Object? ==>
      forall k :: 0 < k < |Print(v)| ==> Run(p, Print(v)[..k]).depth > p.depth
    decreases v, 0
  {
    var inner := Point(Outside, p.depth + 1);
    match v
    case Scalar(text) => InertLevel(p, text);
    case Text(units) => QuotedLevel(p, units);
    case Array(items, tail) =>
      ItemsLevel(inner, items);
      InertLevel(inner, tail);
      LevelConcat(inner, PrintItems(items), tail);
      Bracketed(p, '[', PrintItems(items) + tail, ']');
    case Object(members, tail) =>
      MembersLevel(inner, members);
      InertLevel(inner, tail);
      LevelConcat(inner, PrintMembers(members), tail);
      Bracketed(p, '{', PrintMembers(members) + tail, '}');
  }

  lemma {:induction false} ItemsLevel(p: Point, items: seq<Item>)
    requires p.lex == Outside && forall x :: x in items ==> Inert(x.gap) && Valid(x.value)
    ensures Level(p, PrintItems(items))
    decreases items, 0
  {
    if items == [] {
      assert ""[..0] == "";
    } else {
      var x := items[0];
      InertLevel(p, x.gap);
      PrintLevel(p, x.value);
      ItemsLevel(p, items[1..]);
      LevelConcat(p, x.gap, Print(x.value));
      LevelConcat(p, x.gap + Print(x.value), PrintItems(items[1..]));
    }
  }

  lemma {:induction false} MembersLevel(p: Point, members: seq<Member>)
    requires p.lex == Outside
    requires forall m :: m in members ==> Inert(m.gap) && ValidUnits(m.key) && Inert(m.colon) && Valid(m.value)
    ensures Level(p, PrintMembers(members))
    decreases members, 0
  {
    if members == [] {
      assert ""[..0] == "";
    } else {
      var m := members[0];
      InertLevel(p, m.gap);
      QuotedLevel(p, m.key);
      InertLevel(p, m.colon);
      PrintLevel(p, m.value);
      MembersLevel(p, members[1..]);
      LevelConcat(p, m.gap, Quoted(m.key));
      LevelConcat(p, m.gap + Quoted(m.key), m.colon);
      LevelConcat(p, m.gap + Quoted(m.key) + m.colon, Print(m.value));
      LevelConcat(p, m.gap + Quoted(m.key) + m.colon + Print(m.value), PrintMembers(members[1..]));
    }
  }

  // ----- recovery -----

  /** Prose: no quotes and no opening brackets. Stray closing brackets are harmless. */
  ghost predicate Prose(t: string) {
    forall c :: c in t ==> c != '"' && !IsOpen(c)
  }

  lemma {:induction false} ProseRun(t: string)
    requires Prose(t)
    ensures Run(START, t) == START
  {
    if t != "" {
      assert t[|t| - 1] in t;
      ProseRun(t[..|t| - 1]);
    }
  }

  lemma ProseUpTo(t: string, k: nat)
    requires Prose(t) && k <= |t|
    ensures Run(START, t[..k]) == START
  {
    forall c | c in t[..k] ensures c in t {
      var i :| 0 <= i < k && t[..k][i] == c;
      assert t[i] == c;
    }
    ProseRun(t[..k]);
  }

  lemma PointsOfNoisyText(pre: string, v: Json, post: string, k: nat)
    requires Prose(pre) && Prose(post) && Valid(v) && (v.Array? || v.Object?)
    requires k <= |pre + Print(v) + post|
    ensures var text := pre + Print(v) + post; var p := |pre|; var q := p + |Print(v)|;
      if p < k < q then At(text, k).depth > 0 else At(text, k) == START
  {
    var text := pre + Print(v) + post;
    var p := |pre|;
    var q := p + |Print(v)|;
    ProseRun(pre);
    PrintLevel(START, v);
    if k <= p {
      assert text[..k] == pre[..k];
      ProseUpTo(pre, k);
    } else if k <= q {
      assert text[..k] == pre + Print(v)[..k - p];
      RunConcat(START, pre, Print(v)[..k - p]);
      assert k == q ==> Print(v)[..k - p] == Print(v);
    } else {
      assert text[..k] == pre + Print(v) + post[..k - q];
      RunConcat(START, pre + Print(v), post[..k - q]);
      RunConcat(START, pre, Print(v));
      ProseUpTo(post, k - q);
    }
  }

  lemma OnlySpan(pre: string, v: Json, post: string, s: nat, e: nat)
    requires Prose(pre) && Prose(post) && Valid(v) && (v.Array? || v.Object?)
    ensures Span(pre + Print(v) + post, s, e) <==> s == |pre| && e == |pre| + |Print(v)|
  {
    var text := pre + Print(v) + post;
    var p := |pre|;
    var q := p + |Print(v)|;
    forall k: nat | k <= |text|
      ensures if p < k < q then At(text, k).depth > 0 else At(text, k) == START
    {
      PointsOfNoisyText(pre, v, post, k);
    }
    assert text[p] == Print(v)[0] && text[q - 1] == Print(v)[|Print(v)| - 1];
    assert forall i :: 0 <= i < p ==> text[i] == pre[i] && !IsOpen(text[i]);
    assert forall i :: q <= i < |text| ==> text[i] == post[i - q] && !IsOpen(text[i]);
    if Span(text, s, e) {
      assert s == p;
      assert At(text, q).depth == 0;
    }
  }

  /** Noise recovery: whatever prose surrounds a printed object or array, every result that meets the
      scanner's specification is exactly the printed text. */
  lemma NoiseRecovery(pre: string, v: Json, post: string, r: Option<string>)
    requires Prose(pre) && Prose(post) && Valid(v) && (v.Array? || v.Object?)
    requires IsLargest(pre + Print(v) + post, r)
    ensures r == Some(Print(v))
  {
    var text := pre + Print(v) + post;
    var p := |pre|;
    var q := p + |Print(v)|;
    OnlySpan(pre, v, post, p, q);
    assert Span(text, p, q);
    var s: nat, e: nat :| BestUpTo(text, s, e, |text|) && r.value == text[s..e];
    OnlySpan(pre, v, post, s, e);
    assert text[p..q] == Print(v);
  }

  /** The scanner on noisy text: the specification and the recovery theorem put together. */
  method Recover(pre: string, v: Json, post: string) returns (r: Option<string>)
    requires Prose(pre) && Prose(post) && Valid(v) && (v.Array? || v.Object?)
    ensures r == Some(Print(v))
  {
    r := LargestBalancedJson(pre + Print(v) + post);
    NoiseRecovery(pre, v, post, r);
  }
}
