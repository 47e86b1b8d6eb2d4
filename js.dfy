/** The part of JavaScript's semantics that the route handlers lean on: the values a JSON
    request body can carry, truthiness and `||` defaults, how `${...}` turns a value into
    text, template literals with optional lines, and the String and `path` built-ins the
    handlers call (`indexOf`, `replace`, `startsWith`, `join`, `path.extname`). */
module Js {

  /** A field of a parsed JSON request body, or a value put into a JSON reply.
      Numbers are integers in this model. `Obj` is a plain object (its fields in order). */
  datatype Value =
    | Undefined
    | Null
    | Bool(b: bool)
    | Num(n: int)
    | Str(s: string)
    | Obj(fields: seq<(string, Value)>)

  datatype Option<T> = None | Some(value: T)

  /** The outcome of a call that may throw; a thrown Error is reduced to its `message`. */
  datatype Result<T> = Ok(value: T) | Err(message: string)

  /** JavaScript truthiness (`!!v`): `undefined`, `null`, `false`, `0` and `""` are falsy. */
  function Truthy(v: Value): (r: bool)
    ensures !r <==> v == Undefined || v == Null || v == Bool(false) || v == Num(0) || v == Str("")
  {
    match v
    case Undefined => false
    case Null => false
    case Bool(b) => b
    case Num(n) => n != 0
    case Str(s) => s != ""
    case Obj(_) => true
  }

  /** The expression `v || d`: `v` itself when truthy, otherwise the default; the result is
      truthy exactly when one of the two is. */
  function Or(v: Value, d: Value): (r: Value)
    ensures Truthy(v) ==> r == v
    ensures !Truthy(v) ==> r == d
    ensures Truthy(r) <==> Truthy(v) || Truthy(d)
  {
    if Truthy(v) then v else d
  }

  // ---------------------------------------------------------------------------
  // Numbers as text

  predicate IsDigit(c: char) {
    '0' <= c <= '9'
  }

  predicate AllDigits(s: string) {
    forall i :: 0 <= i < |s| ==> IsDigit(s[i])
  }

  function DigitChar(d: nat): (c: char)
    requires d < 10
    ensures IsDigit(c) && c as int - '0' as int == d
  {
    (48 + d) as char
  }

  /** `String(n)` for a non-negative integer below 10^21 (where JavaScript switches to exponent form). */
  function NatToDecimal(n: nat): (r: string)
    ensures r != [] && AllDigits(r)
    ensures n >= 10 <==> |r| > 1
    decreases n
  {
    if n < 10 then [DigitChar(n)] else NatToDecimal(n / 10) + [DigitChar(n % 10)]
  }

  /** The number a string of decimal digits denotes. */
  function DecimalValue(s: string): nat
    requires AllDigits(s)
  {
    if s == [] then 0 else 10 * DecimalValue(s[..|s| - 1]) + (s[|s| - 1] as int - '0' as int)
  }

  /** Printing a number and reading it back gives the number: the text is a faithful rendering. */
  lemma {:induction false} DecimalRoundTrip(n: nat)
    ensures DecimalValue(NatToDecimal(n)) == n
  {
    if n >= 10 {
      var s := NatToDecimal(n / 10);
      var t := s + [DigitChar(n % 10)];
      assert t[..|t| - 1] == s;
      DecimalRoundTrip(n / 10);
    }
  }

  /** `String(n)` for an integer. */
  function IntToDecimal(n: int): string {
    if n < 0 then "-" + NatToDecimal(-n) else NatToDecimal(n)
  }

  /** Whether `key` is one of an object's own keys. */
  function HasKey(fields: seq<(string, Value)>, key: string): (r: bool)
    ensures r <==> exists i :: 0 <= i < |fields| && fields[i].0 == key
  {
    if fields == [] then false
    else if fields[0].0 == key then true
    else
      var r := HasKey(fields[1..], key);
      assert forall i :: 1 <= i < |fields| ==> fields[i] == fields[1..][i - 1];
      r
  }

  /** Whether `${v}` throws. Converting an object to a string calls its `toString`, and then its
      `valueOf` when that gives no primitive. An object parsed from JSON that has its own
      `toString` key holds a value there that cannot be called, and the inherited `valueOf`
      returns the object itself, so the conversion throws a TypeError. Every other value
      converts. */
  predicate ToStringThrows(v: Value) {
    v.Obj? && HasKey(v.fields, "toString")
  }

  /** A value whose conversion throws is an object, hence truthy: a `${v ? h + v : ''}` line
      converts it, and `v || d` is `v` itself. A default that converts does not change whether
      `${v || d}` throws. */
  lemma ThrowingValueIsTruthy(v: Value, d: Value)
    ensures ToStringThrows(v) ==> Truthy(v) && Or(v, d) == v
    ensures !ToStringThrows(d) ==> (ToStringThrows(Or(v, d)) <==> ToStringThrows(v))
  {
  }

  /** What `${v}` (that is, `String(v)`) produces inside a template literal when the conversion
      does not throw (see `ToStringThrows`): only the empty string gives no text. */
  function Interpolate(v: Value): (r: string)
    ensures r == "" <==> v == Str("")
  {
    match v
    case Undefined => "undefined"
    case Null => "null"
    case Bool(b) => if b then "true" else "false"
    case Num(n) => IntToDecimal(n)
    case Str(s) => s
    case Obj(_) => "[object Object]"
  }

  // ---------------------------------------------------------------------------
  // Template literals

  /** One piece of a template literal: literal text, a `${v}` slot, or the idiom
      `${v ? `heading${v}` : ''}` that contributes a line only when `v` is truthy. */
  datatype Part =
    | Text(text: string)
    | Slot(value: Value)
    | Optional(heading: string, value: Value)

  function RenderPart(p: Part): string {
    match p
    case Text(t) => t
    case Slot(v) => Interpolate(v)
    case Optional(heading, v) => if Truthy(v) then heading + Interpolate(v) else ""
  }

  /** The string a template literal evaluates to. */
  function Render(ps: seq<Part>): string {
    if ps == [] then "" else RenderPart(ps[0]) + Render(ps[1..])
  }

  lemma {:induction false} RenderConcat(a: seq<Part>, b: seq<Part>)
    ensures Render(a + b) == Render(a) + Render(b)
  {
    if a == [] {
      assert a + b == b;
    } else {
      assert (a + b)[1..] == a[1..] + b;
      RenderConcat(a[1..], b);
    }
  }

  /** An optional line between two runs of parts renders to its own text between theirs. */
  lemma OptionalLine(pre: seq<Part>, heading: string, v: Value, post: seq<Part>)
    ensures Render(pre + ([Optional(heading, v)] + post))
         == Render(pre) + (RenderPart(Optional(heading, v)) + Render(post))
  {
    RenderConcat(pre, [Optional(heading, v)] + post);
    RenderCons(Optional(heading, v), post);
  }

  /** `s` with `t` inserted at index `k`. */
  function Insert(s: string, k: nat, t: string): string
    requires k <= |s|
  {
    s[..k] + t + s[k..]
  }

  /** A truthy value inserts its optional line right after the text the parts before it
      render to; a falsy one leaves the template as if the value were absent. */
  lemma OptionalLineAt(pre: seq<Part>, heading: string, v: Value, post: seq<Part>)
    ensures |Render(pre)| <= |Render(pre + ([Optional(heading, Undefined)] + post))|
    ensures Render(pre + ([Optional(heading, v)] + post))
         == if Truthy(v)
            then Insert(Render(pre + ([Optional(heading, Undefined)] + post)), |Render(pre)|, heading + Interpolate(v))
            else Render(pre + ([Optional(heading, Undefined)] + post))
  {
    OptionalLine(pre, heading, Undefined, post);
    OptionalLine(pre, heading, v, post);
    Inserted(Render(pre), RenderPart(Optional(heading, v)), Render(post));
  }

  /** The string fact behind `OptionalLineAt`. */
  lemma Inserted(a: string, line: string, b: string)
    ensures |a| <= |a + ("" + b)|
    ensures a + (line + b) == Insert(a + ("" + b), |a|, line)
    ensures line == "" ==> a + (line + b) == a + ("" + b)
  {
    var bare := a + ("" + b);
    assert bare == a + b;
    assert bare[..|a|] == a && bare[|a|..] == b;
  }

  /** An optional line placed after a further part and more parts is present exactly when its
      value is truthy, right after everything before it. */
  lemma SecondLine(pre: seq<Part>, p1: Part, mid: seq<Part>, h2: string, v2: Value, post: seq<Part>)
    ensures var k2 := |Render(pre)| + |RenderPart(p1)| + |Render(mid)|;
      var noSecond := Render(pre + ([p1] + (mid + ([Optional(h2, Undefined)] + post))));
      && k2 <= |noSecond|
      && Render(pre + ([p1] + (mid + ([Optional(h2, v2)] + post))))
         == (if Truthy(v2) then Insert(noSecond, k2, h2 + Interpolate(v2)) else noSecond)
  {
    var lead := pre + ([p1] + mid);
    Regroup(pre, p1, mid, Optional(h2, v2), post);
    Regroup(pre, p1, mid, Optional(h2, Undefined), post);
    OptionalLineAt(lead, h2, v2, post);
    RenderConcat(pre, [p1] + mid);
    RenderCons(p1, mid);
  }

  lemma Regroup(pre: seq<Part>, p1: Part, mid: seq<Part>, p2: Part, post: seq<Part>)
    ensures pre + ([p1] + (mid + ([p2] + post))) == (pre + ([p1] + mid)) + ([p2] + post)
  {
  }

  lemma ClosingParts(pre: seq<Part>, p1: Part, mid: seq<Part>, p2: Part, post: seq<Part>)
    ensures EndsWith(Render(pre + ([p1] + (mid + ([p2] + post)))), Render(post))
  {
    var lead := pre + ([p1] + (mid + [p2]));
    assert pre + ([p1] + (mid + ([p2] + post))) == lead + post;
    RenderConcat(lead, post);
    SuffixOfConcat(Render(lead), Render(post));
  }

  lemma SuffixOfConcat(a: string, b: string)
    ensures EndsWith(a + b, b)
  {
    assert (a + b)[|a|..] == b;
  }

  /** A template that opens with a text, a slot and a text and then has an optional line: the
      line is present exactly when its value is truthy, right after the opening. */
  lemma LineAfterOpening(t0: string, v1: Value, t2: string, h: string, v: Value, rest: seq<Part>)
    ensures var bare := Render([Text(t0), Slot(v1), Text(t2)] + ([Optional(h, Undefined)] + rest));
      var k := |t0| + |Interpolate(v1)| + |t2|;
      && k <= |bare|
      && Render([Text(t0), Slot(v1), Text(t2)] + ([Optional(h, v)] + rest))
         == if Truthy(v) then Insert(bare, k, h + Interpolate(v)) else bare
  {
    OptionalLineAt([Text(t0), Slot(v1), Text(t2)], h, v, rest);
    RenderTriple(Text(t0), Slot(v1), Text(t2));
  }

  /** The same opening followed by an optional line, a text and a second optional line: the
      second line is present exactly when its value is truthy, right after the text that
      follows the first line (whose text is empty when its value is falsy). */
  lemma LineAfterLineAndText(t0: string, v1: Value, t2: string, h3: string, v3: Value, t4: string, h: string, v: Value,
                             rest: seq<Part>)
    ensures var bare := Render([Text(t0), Slot(v1), Text(t2)] + ([Optional(h3, v3)] + ([Text(t4)] + ([Optional(h, Undefined)] + rest))));
      var k := |t0| + |Interpolate(v1)| + |t2| + (if Truthy(v3) then |h3 + Interpolate(v3)| else 0) + |t4|;
      && k <= |bare|
      && Render([Text(t0), Slot(v1), Text(t2)] + ([Optional(h3, v3)] + ([Text(t4)] + ([Optional(h, v)] + rest))))
         == if Truthy(v) then Insert(bare, k, h + Interpolate(v)) else bare
  {
    var opening := [Text(t0), Slot(v1), Text(t2)];
    SecondLine(opening, Optional(h3, v3), [Text(t4)], h, v, rest);
    OpeningLength(t0, v1, t2);
    TextLength(t4);
  }

  lemma OpeningLength(t0: string, v1: Value, t2: string)
    ensures |Render([Text(t0), Slot(v1), Text(t2)])| == |t0| + |Interpolate(v1)| + |t2|
  {
    RenderTriple(Text(t0), Slot(v1), Text(t2));
  }

  lemma TextLength(t: string)
    ensures |Render([Text(t)])| == |t|
  {
    RenderCons(Text(t), []);
    assert t + "" == t;
  }

  lemma RenderTriple(p0: Part, p1: Part, p2: Part)
    ensures Render([p0, p1, p2]) == RenderPart(p0) + RenderPart(p1) + RenderPart(p2)
  {
    var ps := [p0, p1, p2];
    assert ps[1..][1..][1..] == [];
    assert Render(ps[1..][1..]) == RenderPart(p2) + "";
  }

  /** A template made of a fixed text followed by two optional lines (the shape of a prompt
      built with `+=` under two `if`s) starts with the text, equals it exactly when both values
      are falsy, carries the first line right after the text when its value is truthy, and
      ends with the second line when that value is truthy. */
  lemma TextThenTwoLines(t: string, h1: string, v1: Value, h2: string, v2: Value)
    requires h1 != [] && h2 != []
    ensures var r := Render([Text(t), Optional(h1, v1), Optional(h2, v2)]);
            && StartsWith(r, t)
            && (r == t <==> !Truthy(v1) && !Truthy(v2))
            && (Truthy(v1) ==> OccursAt(r, h1 + Interpolate(v1), |t|))
            && (Truthy(v2) ==> EndsWith(r, h2 + Interpolate(v2)))
  {
    var l1 := RenderPart(Optional(h1, v1));
    var l2 := RenderPart(Optional(h2, v2));
    RenderTriple(Text(t), Optional(h1, v1), Optional(h2, v2));
    var r := t + l1 + l2;
    assert l1 == [] <==> !Truthy(v1);
    assert l2 == [] <==> !Truthy(v2);
    assert r[..|t|] == t;
    assert r == t <==> |l1| + |l2| == 0 by {
      if |l1| + |l2| == 0 {
        assert l1 == [] && l2 == [];
        assert r == t + [] + [];
      }
    }
    assert r[|t|..|t| + |l1|] == l1;
    assert r[|r| - |l2|..] == l2;
  }

  /** The shape of `prompt += heading + value` under `if (value)`: the text grows by what the
      optional line renders to. */
  lemma AppendOptional(acc: string, heading: string, v: Value)
    ensures (if Truthy(v) then acc + (heading + Interpolate(v)) else acc) == acc + RenderPart(Optional(heading, v))
  {
    assert acc + "" == acc;
  }

  lemma RenderCons(p: Part, rest: seq<Part>)
    ensures Render([p] + rest) == RenderPart(p) + Render(rest)
  {
    assert ([p] + rest)[1..] == rest;
  }

  /** A template that opens with a text, a slot and a text starts with the three of them. */
  lemma OpeningSlot(t0: string, v1: Value, t2: string, rest: seq<Part>)
    ensures StartsWith(Render([Text(t0), Slot(v1), Text(t2)] + rest), t0 + Interpolate(v1) + t2)
  {
    RenderConcat([Text(t0), Slot(v1), Text(t2)], rest);
    RenderTriple(Text(t0), Slot(v1), Text(t2));
    PrefixOfConcat(t0 + Interpolate(v1) + t2, Render(rest));
  }

  lemma PrefixOfConcat(a: string, b: string)
    ensures StartsWith(a + b, a)
  {
    assert (a + b)[..|a|] == a;
  }

  /** The shape shared by the prompts that quote two values, each after a heading, and then
      carry one more part before their closing text. Such a prompt starts with its opening
      text and carries each value right after the text before it. */
  lemma TwoQuotes(t0: string, v1: Value, t2: string, v3: Value, t4: string, p5: Part, t6: string)
    ensures var r := Render([Text(t0), Slot(v1), Text(t2), Slot(v3), Text(t4), p5, Text(t6)]);
      && StartsWith(r, t0)
      && OccursAt(r, Interpolate(v1), |t0|)
      && OccursAt(r, Interpolate(v3), |t0| + |Interpolate(v1)| + |t2|)
  {
    RenderSeven(Text(t0), Slot(v1), Text(t2), Slot(v3), Text(t4), p5, Text(t6));
    FivePieces(t0, Interpolate(v1), t2, Interpolate(v3), t4 + (RenderPart(p5) + t6));
  }

  /** When that part is a third value, it comes right after the text that follows the second. */
  lemma ThirdQuote(t0: string, v1: Value, t2: string, v3: Value, t4: string, v5: Value, t6: string)
    ensures OccursAt(Render([Text(t0), Slot(v1), Text(t2), Slot(v3), Text(t4), Slot(v5), Text(t6)]), Interpolate(v5),
                     |t0| + |Interpolate(v1)| + |t2| + |Interpolate(v3)| + |t4|)
  {
    RenderSeven(Text(t0), Slot(v1), Text(t2), Slot(v3), Text(t4), Slot(v5), Text(t6));
    SixthPiece(t0, Interpolate(v1), t2, Interpolate(v3), t4, Interpolate(v5), t6);
  }

  lemma SixthPiece(a: string, b: string, c: string, d: string, e: string, f: string, g: string)
    ensures OccursAt(a + (b + (c + (d + (e + (f + g))))), f, |a| + |b| + |c| + |d| + |e|)
  {
    assert (f + g)[..|f|] == f;
    OccursAfter(e, f + g, f, 0);
    OccursAfter(d, e + (f + g), f, |e|);
    OccursAfter(c, d + (e + (f + g)), f, |d| + |e|);
    OccursAfter(b, c + (d + (e + (f + g))), f, |c| + |d| + |e|);
    OccursAfter(a, b + (c + (d + (e + (f + g)))), f, |b| + |c| + |d| + |e|);
  }

  /** In the same shape, the optional line is present exactly when its value is truthy,
      inserted right after the second value and the text that follows it. */
  lemma LineBeforeClosing(t0: string, v1: Value, t2: string, v3: Value, t4: string, h5: string, v5: Value, t6: string)
    ensures var r := Render([Text(t0), Slot(v1), Text(t2), Slot(v3), Text(t4), Optional(h5, v5), Text(t6)]);
      var bare := Render([Text(t0), Slot(v1), Text(t2), Slot(v3), Text(t4), Optional(h5, Undefined), Text(t6)]);
      var k := |t0| + |Interpolate(v1)| + |t2| + |Interpolate(v3)| + |t4|;
      && k <= |bare|
      && r == if Truthy(v5) then Insert(bare, k, h5 + Interpolate(v5)) else bare
  {
    RenderSeven(Text(t0), Slot(v1), Text(t2), Slot(v3), Text(t4), Optional(h5, v5), Text(t6));
    RenderSeven(Text(t0), Slot(v1), Text(t2), Slot(v3), Text(t4), Optional(h5, Undefined), Text(t6));
    var l5 := RenderPart(Optional(h5, v5));
    Spliced(t0, Interpolate(v1), t2, Interpolate(v3), t4, l5, t6);
  }

  lemma RenderSeven(p0: Part, p1: Part, p2: Part, p3: Part, p4: Part, p5: Part, p6: Part)
    ensures Render([p0, p1, p2, p3, p4, p5, p6])
         == RenderPart(p0) + (RenderPart(p1) + (RenderPart(p2) + (RenderPart(p3)
            + (RenderPart(p4) + (RenderPart(p5) + RenderPart(p6))))))
  {
    RenderCons(p6, []);
    RenderCons(p5, [p6]);
    RenderCons(p4, [p5, p6]);
    RenderCons(p3, [p4, p5, p6]);
    RenderCons(p2, [p3, p4, p5, p6]);
    RenderCons(p1, [p2, p3, p4, p5, p6]);
    RenderCons(p0, [p1, p2, p3, p4, p5, p6]);
    assert RenderPart(p6) + "" == RenderPart(p6);
  }

  /** The string facts behind `LineBeforeClosing`, for the rendered pieces. */
  lemma Spliced(t0: string, x1: string, t2: string, x3: string, t4: string, l5: string, t6: string)
    ensures var r := t0 + (x1 + (t2 + (x3 + (t4 + (l5 + t6)))));
      var bare := t0 + (x1 + (t2 + (x3 + (t4 + ("" + t6)))));
      var k := |t0| + |x1| + |t2| + |x3| + |t4|;
      && k <= |bare|
      && r == Insert(bare, k, l5)
      && (l5 == "" ==> r == bare)
  {
    var lead := t0 + x1 + t2 + x3 + t4;
    var r := t0 + (x1 + (t2 + (x3 + (t4 + (l5 + t6)))));
    var bare := t0 + (x1 + (t2 + (x3 + (t4 + ("" + t6)))));
    assert r == lead + l5 + t6;
    assert bare == lead + t6;
    assert bare[..|lead|] == lead && bare[|lead|..] == t6;
  }

  lemma FivePieces(a: string, b: string, c: string, d: string, e: string)
    ensures var r := a + (b + (c + (d + e)));
      && StartsWith(r, a)
      && OccursAt(r, b, |a|)
      && OccursAt(r, d, |a| + |b| + |c|)
  {
    var r := a + (b + (c + (d + e)));
    assert r[..|a|] == a;
    assert r[|a|..|a| + |b|] == b;
    assert r[|a| + |b| + |c|..|a| + |b| + |c| + |d|] == d;
  }

  // ---------------------------------------------------------------------------
  // String built-ins

  /** `t` occurs in `s` starting at index `i`. */
  predicate OccursAt(s: string, t: string, i: nat) {
    i + |t| <= |s| && s[i..i + |t|] == t
  }

  /** The first occurrence of `t` in `s` at or after `from`. `indexOf` clamps a start beyond the
      end to the end; the routes only search from 0, so that case is not modelled. */
  function IndexFrom(s: string, t: string, from: nat): (r: Option<nat>)
    ensures r.Some? ==> from <= r.value && OccursAt(s, t, r.value)
    ensures r.Some? ==> forall j: nat :: from <= j < r.value ==> !OccursAt(s, t, j)
    ensures r.None? ==> forall j: nat :: from <= j ==> !OccursAt(s, t, j)
    decreases |s| - from
  {
    if from + |t| > |s| then None
    else if s[from..from + |t|] == t then Some(from)
    else IndexFrom(s, t, from + 1)
  }

  /** `s.indexOf(t)`, with `None` for -1. */
  function IndexOf(s: string, t: string): Option<nat> {
    IndexFrom(s, t, 0)
  }

  /** `s.startsWith(p)`. */
  predicate StartsWith(s: string, p: string) {
    p <= s
  }

  /** `s.endsWith(p)`. */
  predicate EndsWith(s: string, p: string) {
    |p| <= |s| && s[|s| - |p|..] == p
  }

  /** `s.replace(pattern, replacement)` with a string pattern: only the first occurrence is
      replaced, and an empty pattern occurs at index 0. */
  function ReplaceFirst(s: string, pattern: string, replacement: string): (r: string)
    ensures IndexOf(s, pattern).None? ==> r == s
    ensures IndexOf(s, pattern).Some? ==>
      var i := IndexOf(s, pattern).value;
      && |r| == |s| - |pattern| + |replacement|
      && r[..i] == s[..i] && OccursAt(r, replacement, i)
      && r[i + |replacement|..] == s[i + |pattern|..]
  {
    match IndexOf(s, pattern)
    case None => s
    case Some(i) => s[..i] + replacement + s[i + |pattern|..]
  }

  /** A string whose character at `i` differs from the pattern's does not start with it. */
  lemma DiffersAt(s: string, p: string, i: nat)
    requires i < |p| && i < |s| && s[i] != p[i]
    ensures !StartsWith(s, p)
  {
  }

  /** An empty pattern is found at index 0, so the replacement is put in front. */
  lemma ReplaceEmpty(s: string, replacement: string)
    ensures ReplaceFirst(s, "", replacement) == replacement + s
  {
    assert s[0..0] == "";
    assert s[0..] == s;
  }

  /** `xs.join(sep)`. */
  function Join(xs: seq<string>, sep: string): string {
    if xs == [] then "" else if |xs| == 1 then xs[0] else xs[0] + sep + Join(xs[1..], sep)
  }

  /** Where the `i`-th item starts in `Join(xs, sep)`. */
  function JoinOffset(xs: seq<string>, sep: string, i: nat): nat
    requires i <= |xs|
  {
    if i == 0 then 0 else |xs[0]| + |sep| + JoinOffset(xs[1..], sep, i - 1)
  }

  lemma OccursAfter(a: string, s: string, t: string, k: nat)
    requires OccursAt(s, t, k)
    ensures OccursAt(a + s, t, |a| + k)
  {
    assert (a + s)[|a| + k..|a| + k + |t|] == s[k..k + |t|];
  }

  lemma OccursBefore(s: string, b: string, t: string, k: nat)
    requires OccursAt(s, t, k)
    ensures OccursAt(s + b, t, k)
  {
    assert (s + b)[k..k + |t|] == s[k..k + |t|];
  }

  lemma JoinUnfold(xs: seq<string>, sep: string)
    requires |xs| > 1
    ensures Join(xs, sep) == (xs[0] + sep) + Join(xs[1..], sep)
  {
  }

  /** Every item of a join appears at its offset. */
  lemma {:induction false} JoinItemAt(xs: seq<string>, sep: string, i: nat)
    requires i < |xs|
    ensures OccursAt(Join(xs, sep), xs[i], JoinOffset(xs, sep, i))
  {
    if |xs| > 1 {
      JoinUnfold(xs, sep);
      if i == 0 {
        var j := Join(xs, sep);
        assert j[..|xs[0]|] == xs[0];
      } else {
        JoinItemAt(xs[1..], sep, i - 1);
        OccursAfter(xs[0] + sep, Join(xs[1..], sep), xs[i], JoinOffset(xs[1..], sep, i - 1));
      }
    }
  }

  /** Each item but the last is followed by the separator, and the next item starts after it:
      the items appear in list order, separated by `sep`. */
  lemma {:induction false} JoinSeparatorAfter(xs: seq<string>, sep: string, i: nat)
    requires i + 1 < |xs|
    ensures OccursAt(Join(xs, sep), sep, JoinOffset(xs, sep, i) + |xs[i]|)
    ensures JoinOffset(xs, sep, i + 1) == JoinOffset(xs, sep, i) + |xs[i]| + |sep|
  {
    JoinUnfold(xs, sep);
    if i == 0 {
      var j := Join(xs, sep);
      assert j[|xs[0]|..|xs[0]| + |sep|] == sep;
    } else {
      JoinSeparatorAfter(xs[1..], sep, i - 1);
      OccursAfter(xs[0] + sep, Join(xs[1..], sep), sep, JoinOffset(xs[1..], sep, i - 1) + |xs[i]|);
    }
  }

  /** A join framed by a text before and a text after it: each item sits at its offset past
      the opening text, and each but the last is followed by the separator and the next item. */
  lemma JoinedItem(pre: string, xs: seq<string>, sep: string, post: string, i: nat)
    requires i < |xs|
    ensures OccursAt(pre + Join(xs, sep) + post, xs[i], |pre| + JoinOffset(xs, sep, i))
    ensures i + 1 < |xs| ==>
      && OccursAt(pre + Join(xs, sep) + post, sep, |pre| + JoinOffset(xs, sep, i) + |xs[i]|)
      && JoinOffset(xs, sep, i + 1) == JoinOffset(xs, sep, i) + |xs[i]| + |sep|
  {
    var list := Join(xs, sep);
    var at := JoinOffset(xs, sep, i);
    JoinItemAt(xs, sep, i);
    OccursAfter(pre, list, xs[i], at);
    OccursBefore(pre + list, post, xs[i], |pre| + at);
    if i + 1 < |xs| {
      JoinSeparatorAfter(xs, sep, i);
      OccursAfter(pre, list, sep, at + |xs[i]|);
      OccursBefore(pre + list, post, sep, |pre| + at + |xs[i]|);
    }
  }

  // ---------------------------------------------------------------------------
  // Paths (POSIX `path.extname`)

  function StripTrailingSlashes(p: string): (r: string)
    ensures r <= p
    ensures r == [] || r[|r| - 1] != '/'
  {
    if p != [] && p[|p| - 1] == '/' then StripTrailingSlashes(p[..|p| - 1]) else p
  }

  /** The last path component: everything after the last '/'. */
  function LastComponent(p: string): (r: string)
    ensures '/' !in r
  {
    if p == [] || p[|p| - 1] == '/' then [] else LastComponent(p[..|p| - 1]) + [p[|p| - 1]]
  }

  lemma {:induction false} LastComponentIsSuffix(p: string)
    ensures |LastComponent(p)| <= |p|
    ensures LastComponent(p) == p[|p| - |LastComponent(p)|..]
  {
    if p != [] && p[|p| - 1] != '/' {
      LastComponentIsSuffix(p[..|p| - 1]);
    }
  }

  lemma {:induction false} LastComponentAppend(p: string, e: string)
    requires '/' !in e
    ensures LastComponent(p + e) == LastComponent(p) + e
    decreases |e|
  {
    if e == [] {
      assert p + e == p;
    } else {
      var init := e[..|e| - 1];
      assert (p + e)[..|p + e| - 1] == p + init;
      LastComponentAppend(p, init);
      assert e == init + [e[|e| - 1]];
    }
  }

  lemma {:induction false} LastComponentWithout(p: string, c: char)
    requires c !in p
    ensures c !in LastComponent(p)
  {
    if p != [] && p[|p| - 1] != '/' {
      LastComponentWithout(p[..|p| - 1], c);
    }
  }

  /** The index of the last occurrence of `c` in `s`. */
  function LastIndexOf(s: string, c: char): (r: Option<nat>)
    ensures r.Some? ==> r.value < |s| && s[r.value] == c && c !in s[r.value + 1..]
    ensures r.None? ==> c !in s
  {
    if s == [] then None
    else if s[|s| - 1] == c then Some(|s| - 1)
    else LastIndexOf(s[..|s| - 1], c)
  }

  /** What `path.extname` can return: empty, or a dot followed by no further dot or slash. */
  predicate IsExtension(e: string) {
    e == [] || (e[0] == '.' && '.' !in e[1..] && '/' !in e)
  }

  /** The extension of one path component: from its last '.' to its end; empty when it has
      no '.', when its only candidate dot is its first character (".profile"), or when the
      component is "..". */
  function ComponentExtension(base: string): (r: string)
    ensures |r| <= |base| && r == base[|base| - |r|..]
  {
    match LastIndexOf(base, '.')
    case None => ""
    case Some(d) =>
      // d == 0: the only dot starts the component; the second test recognises ".."
      if d == 0 || (d == 1 && |base| == 2 && base[0] == '.') then "" else base[d..]
  }

  /** `path.extname(p)` on POSIX: the extension of the last component, trailing slashes
      ignored. */
  function Extname(p: string): (r: string)
    ensures IsExtension(r)
  {
    var base := LastComponent(StripTrailingSlashes(p));
    var r := ComponentExtension(base);
    assert r != [] ==> r == base[LastIndexOf(base, '.').value..];
    assert r != [] ==> r[1..] == base[LastIndexOf(base, '.').value + 1..];
    r
  }

  /** The extension is the tail of the path with its trailing slashes removed. */
  lemma ExtnameIsSuffix(p: string)
    ensures |Extname(p)| <= |StripTrailingSlashes(p)|
    ensures Extname(p) == StripTrailingSlashes(p)[|StripTrailingSlashes(p)| - |Extname(p)|..]
  {
    var s := StripTrailingSlashes(p);
    var base := LastComponent(s);
    var e := ComponentExtension(base);
    assert Extname(p) == e;
    LastComponentIsSuffix(s);
    SuffixOfSuffix(s, base, e);
  }

  lemma SuffixOfSuffix(s: string, m: string, e: string)
    requires |m| <= |s| && m == s[|s| - |m|..]
    requires |e| <= |m| && e == m[|m| - |e|..]
    ensures e == s[|s| - |e|..]
  {
  }

  lemma {:induction false} LastDotIsExtension(x: string, e: string)
    requires '.' !in x && IsExtension(e) && e != []
    ensures LastIndexOf(x + e, '.') == Some(|x|)
    decreases |e|
  {
    var q := x + e;
    if |e| > 1 {
      var init := e[..|e| - 1];
      assert e[|e| - 1] in e[1..];
      assert q[..|q| - 1] == x + init;
      assert init[1..] <= e[1..];
      LastDotIsExtension(x, init);
    }
  }

  /** A name whose stem has no dot and does not end in '/' gets exactly the extension appended
      to it as its `path.extname`. */
  lemma ExtnameOfStem(stem: string, ext: string)
    requires '.' !in stem
    requires stem != [] && stem[|stem| - 1] != '/'
    requires IsExtension(ext)
    ensures Extname(stem + ext) == ext
  {
    var p := stem + ext;
    assert p[|p| - 1] != '/' by {
      if ext != [] {
        assert p[|p| - 1] == ext[|ext| - 1];
      }
    }
    assert StripTrailingSlashes(p) == p;
    LastComponentAppend(stem, ext);
    var b0 := LastComponent(stem);
    LastComponentWithout(stem, '.');
    assert b0 != [] && b0[0] != '.';
    var base := b0 + ext;
    if ext == [] {
      assert base == b0;
    } else {
      LastDotIsExtension(b0, ext);
      assert base[0] == b0[0];
      assert base[|b0|..] == ext;
    }
  }
}
