/**
 * Lifting a template out of a source file's text, and binding values into it again:
 * `scanTemplate` and `bindTemplate` of apps/api-e2e/src/support/shipped-sql.ts.
 */
module Template {
  import opened Prelude

  datatype ScanError = NestedTemplate | UnterminatedInterpolation | DigitFollows | UnterminatedTemplate

  /** What is lifted: the text with a placeholder for each interpolation, and the expressions. */
  datatype Statement = Statement(text: string, params: seq<string>)

  predicate IsSpace(c: char) {
    || c == ' ' || '\t' <= c <= '\r' || c == '\U{A0}' || c == '\U{1680}' || '\U{2000}' <= c <= '\U{200A}'
    || c == '\U{2028}' || c == '\U{2029}' || c == '\U{202F}' || c == '\U{205F}' || c == '\U{3000}' || c == '\U{FEFF}'
  }

  function TrimStart(s: string): string {
    if s != [] && IsSpace(s[0]) then TrimStart(s[1..]) else s
  }

  /** `String.prototype.trim`. */
  function Trim(s: string): string
    decreases |s|
  {
    var t := TrimStart(s);
    TrimEnd(t)
  }

  function TrimEnd(s: string): string {
    if s != [] && IsSpace(s[|s| - 1]) then TrimEnd(s[..|s| - 1]) else s
  }

  predicate AllSpace(s: string) {
    forall c <- s :: IsSpace(c)
  }

  lemma {:induction false} TrimmedAtStart(s: string) returns (before: string)
    ensures s == before + TrimStart(s) && AllSpace(before)
    ensures TrimStart(s) != [] ==> !IsSpace(TrimStart(s)[0])
  {
    before := [];
    if s != [] && IsSpace(s[0]) {
      before := TrimmedAtStart(s[1..]);
      before := [s[0]] + before;
    }
  }

  lemma {:induction false} TrimmedAtEnd(s: string) returns (after: string)
    ensures s == TrimEnd(s) + after && AllSpace(after)
    ensures TrimEnd(s) != [] ==> !IsSpace(TrimEnd(s)[|TrimEnd(s)| - 1])
    decreases |s|
  {
    after := [];
    if s != [] && IsSpace(s[|s| - 1]) {
      after := TrimmedAtEnd(s[..|s| - 1]);
      after := after + [s[|s| - 1]];
    }
  }

  /** Trimming takes off the space at both ends, all of it and nothing else. */
  lemma TrimsSpace(s: string) returns (before: string, after: string)
    ensures s == before + Trim(s) + after && AllSpace(before) && AllSpace(after)
    ensures Trim(s) != [] ==> !IsSpace(Trim(s)[0]) && !IsSpace(Trim(s)[|Trim(s)| - 1])
  {
    before := TrimmedAtStart(s);
    after := TrimmedAtEnd(TrimStart(s));
  }

  predicate AllDigits(s: string) {
    forall c <- s :: IsDigit(c)
  }

  /** The digit after another. What is no digit stays as it is. */
  function NextDigit(c: char): char {
    if '0' <= c < '9' then (c as int + 1) as char else c
  }

  function Increment(digits: string): string {
    if digits == [] then "1"
    else if digits[|digits| - 1] == '9' then Increment(digits[..|digits| - 1]) + "0"
    else digits[..|digits| - 1] + [NextDigit(digits[|digits| - 1])]
  }

  /** A count as JavaScript renders it: decimal, without leading zeros. */
  function Decimal(n: nat): string {
    if n == 0 then "0" else Increment(Decimal(n - 1))
  }

  function DigitValue(c: char): nat {
    if IsDigit(c) then c as int - '0' as int else 0
  }

  /** `Number` of a run of digits. */
  function Number(s: string): nat {
    if s == [] then 0 else 10 * Number(s[..|s| - 1]) + DigitValue(s[|s| - 1])
  }

  lemma {:induction false} NumberOfIncrement(digits: string)
    requires AllDigits(digits)
    ensures Increment(digits) != [] && AllDigits(Increment(digits))
    ensures Number(Increment(digits)) == Number(digits) + 1
    decreases |digits|
  {
    var next, n := Increment(digits), |digits| - 1;
    if digits != [] {
      assert digits[n] in digits;
      if digits[n] == '9' {
        NumberOfIncrement(digits[..n]);
        assert next[..|next| - 1] == Increment(digits[..n]);
      } else {
        assert next[..|next| - 1] == digits[..n];
      }
    }
  }

  lemma {:induction false} NumberReadsDecimal(n: nat)
    ensures Decimal(n) != [] && AllDigits(Decimal(n))
    ensures Number(Decimal(n)) == n
  {
    if n > 0 {
      NumberReadsDecimal(n - 1);
      NumberOfIncrement(Decimal(n - 1));
    }
  }

  // ---- scanning ----

  function Prefixed(text: string, r: Result<Statement, ScanError>): Result<Statement, ScanError> {
    match r
    case Ok(st) => Ok(Statement(text + st.text, st.params))
    case Err(_) => r
  }

  function WithParam(param: string, r: Result<Statement, ScanError>): Result<Statement, ScanError> {
    match r
    case Ok(st) => Ok(Statement(st.text, [param] + st.params))
    case Err(_) => r
  }

  function Placeholder(k: nat): string {
    "$" + Decimal(k)
  }

  predicate DigitAt(s: string, i: nat) {
    i < |s| && IsDigit(s[i])
  }

  predicate OpensHole(s: string, i: nat) {
    i + 1 < |s| && s[i] == '$' && s[i + 1] == '{'
  }

  /** The brace depth after a character. */
  function Depth(c: char, depth: nat): nat
    requires depth > 0
  {
    if c == '{' then depth + 1 else if c == '}' then depth - 1 else depth
  }

  /** Where the interpolation read up to `i` closes: `depth` braces are open. */
  function Interpolation(s: string, i: nat, depth: nat): (r: Result<nat, ScanError>)
    requires i <= |s| && depth > 0
    ensures r.Ok? ==> i <= r.value < |s| && s[r.value] == '}'
    decreases |s| - i
  {
    if i == |s| then Err(UnterminatedInterpolation)
    else if s[i] == '`' then Err(NestedTemplate)
    else if s[i] == '}' && depth == 1 then Ok(i)
    else Interpolation(s, i + 1, Depth(s[i], depth))
  }

  /** A template from `i` on, with `lifted` interpolations before that, scanned. */
  function Scan(s: string, i: nat, lifted: nat): Result<Statement, ScanError>
    requires i <= |s|
    decreases |s| - i, 1
  {
    if i == |s| then Err(UnterminatedTemplate)
    else if s[i] == '\\' then
      var next := if i + 1 < |s| then i + 2 else i + 1;
      Prefixed(s[i..next], Scan(s, next, lifted))
    else if s[i] == '`' then Ok(Statement("", []))
    else if OpensHole(s, i) then ScanHole(s, i, lifted)
    else Prefixed([s[i]], Scan(s, i + 1, lifted))
  }

  function ScanHole(s: string, i: nat, lifted: nat): Result<Statement, ScanError>
    requires OpensHole(s, i)
    decreases |s| - i, 0
  {
    var closing := Interpolation(s, i + 2, 1);
    if closing.Err? then Err(closing.error)
    else if DigitAt(s, closing.value + 1) then Err(DigitFollows)
    else WithParam(Trim(s[i + 2..closing.value]),
        Prefixed(Placeholder(lifted + 1), Scan(s, closing.value + 1, lifted + 1)))
  }

  function Extended(text: string, params: seq<string>, r: Result<Statement, ScanError>): Result<Statement, ScanError> {
    match r
    case Ok(st) => Ok(Statement(text + st.text, params + st.params))
    case Err(_) => r
  }

  lemma ExtendedByNothing(r: Result<Statement, ScanError>)
    ensures Extended("", [], r) == r
  {
    if r.Ok? {
      assert "" + r.value.text == r.value.text && [] + r.value.params == r.value.params;
    }
  }

  lemma ExtendedByText(text: string, params: seq<string>, head: string, r: Result<Statement, ScanError>)
    ensures Extended(text, params, Prefixed(head, r)) == Extended(text + head, params, r)
  {
    if r.Ok? {
      assert text + (head + r.value.text) == (text + head) + r.value.text;
    }
  }

  lemma ExtendedByHole(text: string, params: seq<string>, param: string, head: string, r: Result<Statement, ScanError>)
    ensures Extended(text, params, WithParam(param, Prefixed(head, r))) == Extended(text + head, params + [param], r)
  {
    if r.Ok? {
      assert text + (head + r.value.text) == (text + head) + r.value.text;
      assert params + ([param] + r.value.params) == (params + [param]) + r.value.params;
    }
  }

  /** The inner loop of `scanTemplate`: from just past `${` to the closing brace. */
  method ScanExpression(source: string, start: nat) returns (r: Result<string, ScanError>, index: nat)
    requires start <= |source|
    ensures match Interpolation(source, start, 1)
            case Ok(closing) => index == closing && r == Ok(source[start..index])
            case Err(e) => r == Err(e)
  {
    var depth := 1;
    var expression := "";
    index := start;
    while index < |source| && depth > 0
      invariant start <= index <= |source| && expression == source[start..index] && depth > 0
      invariant Interpolation(source, start, 1) == Interpolation(source, index, depth)
      decreases |source| - index
    {
      var inner := source[index];
      if inner == '`' {
        return Err(NestedTemplate), index;
      }
      if inner == '{' {
        depth := depth + 1;
      } else if inner == '}' {
        depth := depth - 1;
        if depth == 0 {
          return Ok(expression), index;
        }
      }
      expression := expression + [inner];
      index := index + 1;
    }
    r := Err(UnterminatedInterpolation);
  }

  /** `scanTemplate`, from just past the opening backtick. */
  method ScanTemplate(source: string, start: nat, trim: bool) returns (r: Result<Statement, ScanError>)
    requires start <= |source|
    ensures match Scan(source, start, 0)
            case Ok(st) => r == Ok(Statement(if trim then Trim(st.text) else st.text, st.params))
            case Err(e) => r == Err(e)
  {
    var params: seq<string> := [];
    var text := "";
    var index := start;
    ExtendedByNothing(Scan(source, start, 0));
    while index < |source|
      invariant start <= index <= |source|
      invariant Scan(source, start, 0) == Extended(text, params, Scan(source, index, |params|))
    {
      var c := source[index];
      if c == '\\' {
        var next := if index + 1 < |source| then index + 2 else index + 1;
        ExtendedByText(text, params, source[index..next], Scan(source, next, |params|));
        text := text + source[index..next];
        index := next;
      } else if c == '`' {
        assert text + "" == text && params + [] == params;
        return Ok(Statement(if trim then Trim(text) else text, params));
      } else if c == '$' && index + 1 < |source| && source[index + 1] == '{' {
        assert Scan(source, index, |params|) == ScanHole(source, index, |params|);
        var expression, closing := ScanExpression(source, index + 2);
        if expression.Err? {
          return Err(expression.error);
        }
        if closing + 1 < |source| && IsDigit(source[closing + 1]) {
          return Err(DigitFollows);
        }
        var param := Trim(expression.value);
        ExtendedByHole(text, params, param, Placeholder(|params| + 1), Scan(source, closing + 1, |params| + 1));
        params := params + [param];
        text := text + Placeholder(|params|);
        index := closing + 1;
      } else {
        ExtendedByText(text, params, [c], Scan(source, index + 1, |params|));
        text := text + [c];
        index := index + 1;
      }
    }
    r := Err(UnterminatedTemplate);
  }

  // ---- templates as they are written ----

  /** A template's source: literal text, and an expression between each two pieces of it. */
  datatype Pieces = End(literal: string) | Hole(literal: string, expression: string, rest: Pieces)

  /**
   * Literal text, from `i` on: a backslash takes the next character with it, and no other backtick
   * or `${` is in it.
   */
  predicate IsLiteral(s: string, i: nat)
    requires i <= |s|
    decreases |s| - i
  {
    i == |s| ||
    if s[i] == '\\' then i + 1 < |s| && IsLiteral(s, i + 2)
    else s[i] != '`' && !OpensHole(s, i) && IsLiteral(s, i + 1)
  }

  /** The rest of an expression, with `depth` braces open: they pair up, and no backtick is in it. */
  predicate Closes(s: string, i: nat, depth: nat)
    requires i <= |s| && depth > 0
    decreases |s| - i
  {
    if i == |s| then depth == 1
    else s[i] != '`' && Depth(s[i], depth) > 0 && Closes(s, i + 1, Depth(s[i], depth))
  }

  predicate Written(t: Pieces) {
    IsLiteral(t.literal, 0) && (t.Hole? ==> Closes(t.expression, 0, 1) && Written(t.rest))
  }

  function Source(t: Pieces): string {
    match t
    case End(literal) => literal + "`"
    case Hole(literal, expression, rest) => literal + ("${" + (expression + ("}" + Source(rest))))
  }

  /** The template as it is lifted, with `lifted` interpolations before it. */
  function Text(t: Pieces, lifted: nat): string {
    match t
    case End(literal) => literal
    case Hole(literal, _, rest) => literal + (Placeholder(lifted + 1) + Text(rest, lifted + 1))
  }

  function Params(t: Pieces): seq<string> {
    match t
    case End(_) => []
    case Hole(_, expression, rest) => [Trim(expression)] + Params(rest)
  }

  /** No interpolation is followed by a digit. */
  predicate NoDigitFollows(t: Pieces) {
    t.Hole? ==> !DigitAt(t.rest.literal, 0) && NoDigitFollows(t.rest)
  }

  function Shifted(offset: nat, r: Result<nat, ScanError>): Result<nat, ScanError> {
    match r
    case Ok(k) => Ok(offset + k)
    case Err(_) => r
  }

  lemma {:induction false} InterpolationShifts(a: string, s: string, k: nat, depth: nat)
    requires k <= |s| && depth > 0
    ensures Interpolation(a + s, |a| + k, depth) == Shifted(|a|, Interpolation(s, k, depth))
    decreases |s| - k
  {
    if k < |s| {
      assert (a + s)[|a| + k] == s[k];
      if s[k] != '`' && !(s[k] == '}' && depth == 1) {
        InterpolationShifts(a, s, k + 1, Depth(s[k], depth));
      }
    }
  }

  lemma SliceShifts(a: string, s: string, from: nat, to: nat)
    requires from <= to <= |s|
    ensures (a + s)[|a| + from..|a| + to] == s[from..to]
  {
  }

  /** A scan does not look back: what is before `k` makes no difference. */
  lemma {:induction false} ScanShifts(a: string, s: string, k: nat, lifted: nat)
    requires k <= |s|
    ensures Scan(a + s, |a| + k, lifted) == Scan(s, k, lifted)
    decreases |s| - k
  {
    var whole := a + s;
    assert forall i :: 0 <= i < |s| ==> whole[|a| + i] == s[i];
    if k == |s| || s[k] == '`' {
    } else if s[k] == '\\' {
      var next := if k + 1 < |s| then k + 2 else k + 1;
      ScanShifts(a, s, next, lifted);
      assert whole[|a| + k..|a| + next] == s[k..next];
    } else if OpensHole(s, k) {
      HoleShifts(a, s, k, lifted);
    } else {
      ScanShifts(a, s, k + 1, lifted);
    }
  }

  lemma {:induction false} HoleShifts(a: string, s: string, k: nat, lifted: nat)
    requires OpensHole(s, k)
    ensures OpensHole(a + s, |a| + k) && ScanHole(a + s, |a| + k, lifted) == ScanHole(s, k, lifted)
    decreases |s| - k, 0
  {
    hide Scan, Depth, TrimStart, TrimEnd, Decimal, Increment;
    InterpolationShifts(a, s, k + 2, 1);
    var closing := Interpolation(s, k + 2, 1);
    if closing.Ok? {
      ScanShifts(a, s, closing.value + 1, lifted + 1);
      SliceShifts(a, s, k + 2, closing.value);
    }
  }

  lemma {:induction false} ScanLiteral(literal: string, i: nat, tail: string, lifted: nat)
    requires i <= |literal| && IsLiteral(literal, i) && tail != [] && tail[0] != '{'
    ensures Scan(literal + tail, i, lifted) == Prefixed(literal[i..], Scan(tail, 0, lifted))
    decreases |literal| - i
  {
    var s := literal + tail;
    if i == |literal| {
      ScanShifts(literal, tail, 0, lifted);
      PrefixedTwice("", literal[i..], Scan(tail, 0, lifted));
    } else {
      var next := if literal[i] == '\\' then i + 2 else i + 1;
      ScanLiteral(literal, next, tail, lifted);
      PrefixedTwice(literal[i..next], literal[next..], Scan(tail, 0, lifted));
      assert s[i..next] == literal[i..next] && literal[i..next] + literal[next..] == literal[i..];
      if literal[i] != '\\' {
        assert !OpensHole(s, i) && [s[i]] == s[i..next];
      }
    }
  }

  lemma PrefixedTwice(a: string, b: string, r: Result<Statement, ScanError>)
    ensures Prefixed(a, Prefixed(b, r)) == Prefixed(a + b, r)
    ensures Prefixed("", r) == r
  {
    if r.Ok? {
      assert a + (b + r.value.text) == (a + b) + r.value.text && "" + r.value.text == r.value.text;
    }
  }

  lemma {:induction false} InterpolationCloses(expression: string, i: nat, depth: nat, tail: string)
    requires i <= |expression| && depth > 0 && Closes(expression, i, depth)
    requires tail != [] && tail[0] == '}'
    ensures Interpolation(expression + tail, i, depth) == Ok(|expression|)
    decreases |expression| - i
  {
    if i < |expression| {
      InterpolationCloses(expression, i + 1, Depth(expression[i], depth), tail);
    }
  }

  lemma HoleCloses(expression: string, after: string)
    requires Closes(expression, 0, 1)
    ensures Interpolation("${" + (expression + ("}" + after)), 2, 1) == Ok(2 + |expression|)
  {
    InterpolationCloses(expression, 0, 1, "}" + after);
    InterpolationShifts("${", expression + ("}" + after), 0, 1);
  }

  lemma HoleAsWritten(expression: string, after: string, lifted: nat)
    requires Closes(expression, 0, 1)
    ensures Scan("${" + (expression + ("}" + after)), 0, lifted) ==
            if DigitAt(after, 0) then Err(DigitFollows)
            else WithParam(Trim(expression), Prefixed(Placeholder(lifted + 1), Scan(after, 0, lifted + 1)))
  {
    var s, closing := "${" + (expression + ("}" + after)), 2 + |expression|;
    HoleCloses(expression, after);
    assert s[2..closing] == expression;
    assert s == s[..closing + 1] + after;
    ScanShifts(s[..closing + 1], after, 0, lifted + 1);
    assert Scan(s, 0, lifted) == ScanHole(s, 0, lifted);
  }

  /**
   * A template is read as it was written: the scan lifts exactly its literals, with placeholders
   * numbered in order, and its expressions, and stops at its own backtick; it refuses it exactly
   * when an interpolation is followed by a digit.
   */
  lemma {:induction false} ReadAsWritten(t: Pieces, tail: string, lifted: nat)
    requires Written(t)
    ensures Scan(Source(t) + tail, 0, lifted) ==
            if NoDigitFollows(t) then Ok(Statement(Text(t, lifted), Params(t))) else Err(DigitFollows)
    decreases t
  {
    match t {
      case End(literal) =>
        assert Source(t) + tail == literal + ("`" + tail);
        ScanLiteral(literal, 0, "`" + tail, lifted);
        assert literal[0..] + "" == literal;
      case Hole(literal, expression, rest) =>
        var after := Source(rest) + tail;
        var hole := "${" + (expression + ("}" + after));
        assert Source(t) + tail == literal + hole;
        ScanLiteral(literal, 0, hole, lifted);
        assert literal[0..] == literal;
        HoleAsWritten(expression, after, lifted);
        assert DigitAt(after, 0) <==> DigitAt(rest.literal, 0);
        ReadAsWritten(rest, tail, lifted + 1);
    }
  }

  lemma {:induction false} ClosesInterpolation(s: string, start: nat, i: nat, depth: nat)
    requires start <= i <= |s| && depth > 0 && Interpolation(s, i, depth).Ok?
    ensures Closes(s[start..Interpolation(s, i, depth).value], i - start, depth)
    decreases |s| - i
  {
    var closing := Interpolation(s, i, depth).value;
    if i < closing {
      ClosesInterpolation(s, start, i + 1, Depth(s[i], depth));
    }
  }

  lemma {:induction false} LiteralShifts(head: string, literal: string, k: nat)
    requires k <= |literal|
    ensures IsLiteral(head + literal, |head| + k) == IsLiteral(literal, k)
    decreases |literal| - k
  {
    assert forall i :: 0 <= i < |literal| ==> (head + literal)[|head| + i] == literal[i];
    if k < |literal| {
      LiteralShifts(head, literal, k + 1);
      if k + 1 < |literal| {
        LiteralShifts(head, literal, k + 2);
      }
    }
  }

  /** `t` stands in `s` at `i`. */
  ghost predicate StandsAt(t: Pieces, s: string, i: nat) {
    i + |Source(t)| <= |s| && s[i..i + |Source(t)|] == Source(t)
  }

  /** Nothing else is lifted: whatever a scan lifts was written there, as a template ending in its own backtick. */
  lemma {:induction false} LiftedWasWritten(s: string, i: nat, lifted: nat) returns (t: Pieces)
    requires i <= |s| && Scan(s, i, lifted).Ok?
    ensures Written(t) && NoDigitFollows(t) && StandsAt(t, s, i)
    ensures Scan(s, i, lifted).value == Statement(Text(t, lifted), Params(t))
    decreases |s| - i, 1
  {
    if s[i] == '`' {
      t := End("");
      assert Source(t) == "`";
    } else if s[i] != '\\' && OpensHole(s, i) {
      t := LiftedHoleWasWritten(s, i, lifted);
    } else {
      var next := if s[i] == '\\' then i + 2 else i + 1;
      assert s[i] != '\\' ==> [s[i]] == s[i..next];
      var u := LiftedWasWritten(s, next, lifted);
      t := Longer(s[i..next], u);
      LiteralBefore(s, i, next, u, lifted);
      LiteralGrows(s, i, next, u);
    }
  }

  lemma {:induction false} LiftedHoleWasWritten(s: string, i: nat, lifted: nat) returns (t: Pieces)
    requires OpensHole(s, i) && ScanHole(s, i, lifted).Ok?
    ensures Written(t) && NoDigitFollows(t) && StandsAt(t, s, i)
    ensures ScanHole(s, i, lifted).value == Statement(Text(t, lifted), Params(t))
    decreases |s| - i, 0
  {
    var closing := Interpolation(s, i + 2, 1).value;
    ClosesInterpolation(s, i + 2, i + 2, 1);
    var u := LiftedWasWritten(s, closing + 1, lifted + 1);
    t := Hole("", s[i + 2..closing], u);
    HoleBefore(s, i, closing, u, lifted);
  }

  /** A template with more literal text before it. */
  function Longer(head: string, t: Pieces): Pieces {
    match t
    case End(literal) => End(head + literal)
    case Hole(literal, expression, rest) => Hole(head + literal, expression, rest)
  }

  lemma HoleBefore(s: string, i: nat, closing: nat, u: Pieces, lifted: nat)
    requires OpensHole(s, i) && i + 2 <= closing < |s| && s[closing] == '}'
    requires StandsAt(u, s, closing + 1) && !DigitAt(s, closing + 1)
    ensures var t := Hole("", s[i + 2..closing], u);
            StandsAt(t, s, i) && Text(t, lifted) == Placeholder(lifted + 1) + Text(u, lifted + 1)
    ensures !DigitAt(u.literal, 0)
  {
    var end := closing + 1 + |Source(u)|;
    assert s[i..end] == s[i..i + 2] + (s[i + 2..closing] + ([s[closing]] + s[closing + 1..end]));
    assert s[i..i + 2] == "${";
    if u.literal != [] {
      assert s[closing + 1] == s[closing + 1..end][0] == Source(u)[0] == u.literal[0];
    }
  }

  lemma LongerSource(head: string, u: Pieces, lifted: nat)
    ensures Source(Longer(head, u)) == head + Source(u)
    ensures Text(Longer(head, u), lifted) == head + Text(u, lifted)
  {
    match u
    case End(literal) =>
      assert (head + literal) + "`" == head + (literal + "`");
    case Hole(literal, expression, rest) =>
      var source, text := "${" + (expression + ("}" + Source(rest))), Placeholder(lifted + 1) + Text(rest, lifted + 1);
      assert (head + literal) + source == head + (literal + source) &&
             (head + literal) + text == head + (literal + text);
  }

  lemma LiteralBefore(s: string, i: nat, next: nat, u: Pieces, lifted: nat)
    requires i < next <= |s| && StandsAt(u, s, next)
    ensures var t := Longer(s[i..next], u);
            StandsAt(t, s, i) && Text(t, lifted) == s[i..next] + Text(u, lifted)
  {
    LongerSource(s[i..next], u, lifted);
    var end := next + |Source(u)|;
    assert s[i..end] == s[i..next] + s[next..end];
  }

  lemma LiteralGrows(s: string, i: nat, next: nat, u: Pieces)
    requires i < next <= |s| && StandsAt(u, s, next) && IsLiteral(u.literal, 0)
    requires if s[i] == '\\' then next == i + 2 else next == i + 1 && s[i] != '`' && !OpensHole(s, i)
    ensures IsLiteral(s[i..next] + u.literal, 0)
  {
    if u.literal != [] {
      assert s[next] == s[next..next + |Source(u)|][0] == Source(u)[0] == u.literal[0];
    }
    LiteralGrowsBy(s, i, next, u.literal);
  }

  lemma LiteralGrowsBy(s: string, i: nat, next: nat, literal: string)
    requires i < next <= |s| && IsLiteral(literal, 0) && (literal != [] ==> next < |s| && s[next] == literal[0])
    requires if s[i] == '\\' then next == i + 2 else next == i + 1 && s[i] != '`' && !OpensHole(s, i)
    ensures IsLiteral(s[i..next] + literal, 0)
  {
    LiteralShifts(s[i..next], literal, 0);
  }

  // ---- what is not lifted ----

  /** A template without its last backtick. */
  function Unclosed(t: Pieces): string {
    match t
    case End(literal) => literal
    case Hole(literal, expression, rest) => literal + ("${" + (expression + ("}" + Unclosed(rest))))
  }

  /** The rest of an expression, with `depth` braces open, up to where one of them is open still. */
  predicate StaysOpen(s: string, i: nat, depth: nat)
    requires i <= |s| && depth > 0
    decreases |s| - i
  {
    i == |s| || (s[i] != '`' && Depth(s[i], depth) > 0 && StaysOpen(s, i + 1, Depth(s[i], depth)))
  }

  /** What stands at `k`, where the scan breaks off: the end, a nested template, no brace, or a digit after it. */
  ghost predicate BreaksOff(s: string, k: nat, error: ScanError)
    requires k <= |s|
  {
    match error
    case UnterminatedTemplate => k == |s| || (k + 1 == |s| && s[k] == '\\')
    case UnterminatedInterpolation => OpensHole(s, k) && StaysOpen(s[k + 2..], 0, 1)
    case NestedTemplate =>
      OpensHole(s, k) && exists j :: k + 2 <= j < |s| && s[j] == '`' && StaysOpen(s[k + 2..j], 0, 1)
    case DigitFollows =>
      OpensHole(s, k) &&
      exists j :: k + 2 <= j < |s| && s[j] == '}' && Closes(s[k + 2..j], 0, 1) && DigitAt(s, j + 1)
  }

  lemma {:induction false} BreaksOffInside(s: string, start: nat, i: nat, depth: nat) returns (j: nat)
    requires start <= i <= |s| && depth > 0 && Interpolation(s, i, depth).Err?
    ensures i <= j <= |s| && StaysOpen(s[start..j], i - start, depth)
    ensures match Interpolation(s, i, depth).error
            case UnterminatedInterpolation => j == |s|
            case NestedTemplate => j < |s| && s[j] == '`'
            case _ => false
    decreases |s| - i
  {
    if i == |s| || s[i] == '`' {
      j := i;
    } else {
      j := BreaksOffInside(s, start, i + 1, Depth(s[i], depth));
    }
  }

  /** And what a scan refuses was the beginning of a template, up to what it is refused for. */
  lemma {:induction false} RefusedBrokeOff(s: string, i: nat, lifted: nat) returns (t: Pieces, k: nat)
    requires i <= |s| && Scan(s, i, lifted).Err?
    ensures Written(t) && NoDigitFollows(t) && i <= k <= |s| && s[i..k] == Unclosed(t)
    ensures BreaksOff(s, k, Scan(s, i, lifted).error)
    decreases |s| - i, 1
  {
    if i == |s| || (s[i] == '\\' && i + 1 == |s|) {
      t, k := End(""), i;
    } else if s[i] != '\\' && OpensHole(s, i) {
      t, k := RefusedHoleBrokeOff(s, i, lifted);
    } else {
      var next := if s[i] == '\\' then i + 2 else i + 1;
      assert s[i] != '\\' ==> [s[i]] == s[i..next];
      var u;
      u, k := RefusedBrokeOff(s, next, lifted);
      t := Longer(s[i..next], u);
      assert s[i..k] == s[i..next] + s[next..k];
      LongerUnclosed(s[i..next], u);
      LiteralStarts(u, s[next..k]);
      LiteralGrowsBy(s, i, next, u.literal);
    }
  }

  lemma {:induction false} RefusedHoleBrokeOff(s: string, i: nat, lifted: nat) returns (t: Pieces, k: nat)
    requires OpensHole(s, i) && s[i] != '\\' && ScanHole(s, i, lifted).Err?
    ensures Written(t) && NoDigitFollows(t) && i <= k <= |s| && s[i..k] == Unclosed(t)
    ensures BreaksOff(s, k, ScanHole(s, i, lifted).error)
    decreases |s| - i, 0
  {
    hide Scan, Depth, TrimStart, TrimEnd, Decimal;
    var closing := Interpolation(s, i + 2, 1);
    t, k := End(""), i;
    if closing.Err? {
      var j := BreaksOffInside(s, i + 2, i + 2, 1);
      assert closing.error.UnterminatedInterpolation? ==> s[i + 2..j] == s[i + 2..];
    } else {
      ClosesInterpolation(s, i + 2, i + 2, 1);
      if !DigitAt(s, closing.value + 1) {
        var u;
        u, k := RefusedBrokeOff(s, closing.value + 1, lifted + 1);
        t := Hole("", s[i + 2..closing.value], u);
        assert s[i..k] == "${" + (s[i + 2..closing.value] + ("}" + s[closing.value + 1..k]));
        LiteralStarts(u, s[closing.value + 1..k]);
      }
    }
  }

  lemma LiteralStarts(t: Pieces, s: string)
    requires s == Unclosed(t)
    ensures t.literal <= s
  {
  }

  lemma LongerUnclosed(head: string, u: Pieces)
    ensures Unclosed(Longer(head, u)) == head + Unclosed(u)
  {
    if u.Hole? {
      var source := "${" + (u.expression + ("}" + Unclosed(u.rest)));
      assert (head + u.literal) + source == head + (u.literal + source);
    }
  }

  // ---- binding ----

  datatype BindError = WrongArity | NotSupplied(index: nat)

  /** Where the digits from `i` on end. */
  function DigitsEnd(s: string, i: nat): (end: nat)
    requires i <= |s|
    ensures i <= end <= |s|
    decreases |s| - i
  {
    if DigitAt(s, i) then DigitsEnd(s, i + 1) else i
  }

  /** A `$` with a digit after it, which is where `/\$(\d+)/` matches. */
  predicate AtPlaceholder(s: string, i: nat) {
    i < |s| && s[i] == '$' && DigitAt(s, i + 1)
  }

  function Before(head: string, r: Result<string, BindError>): Result<string, BindError> {
    match r
    case Ok(tail) => Ok(head + tail)
    case Err(_) => r
  }

  /** The replacement in `bindTemplate`: each match by the value of its number. What it puts in is not read again. */
  function Replaced(s: string, i: nat, values: seq<string>): Result<string, BindError>
    requires i <= |s|
    decreases |s| - i, 1
  {
    if i == |s| then Ok("")
    else if AtPlaceholder(s, i) then ReplacedMatch(s, i, values)
    else Before([s[i]], Replaced(s, i + 1, values))
  }

  function ReplacedMatch(s: string, i: nat, values: seq<string>): Result<string, BindError>
    requires AtPlaceholder(s, i)
    decreases |s| - i, 0
  {
    var end := DigitsEnd(s, i + 1);
    var index := Number(s[i + 1..end]);
    if 1 <= index <= |values| then Before(values[index - 1], Replaced(s, end, values)) else Err(NotSupplied(index))
  }

  /** `bindTemplate`. */
  function BindTemplate(st: Statement, values: seq<string>): Result<string, BindError> {
    if |values| != |st.params| then Err(WrongArity) else Replaced(st.text, 0, values)
  }

  /** The number of the placeholder at `k`. */
  function NumberAt(s: string, k: nat): nat
    requires AtPlaceholder(s, k)
  {
    Number(s[k + 1..DigitsEnd(s, k + 1)])
  }

  /** The placeholder at `k` has no value, and every one ahead of it has. */
  ghost predicate FirstMissing(s: string, i: nat, k: nat, values: seq<string>) {
    && i <= k && AtPlaceholder(s, k) && !(1 <= NumberAt(s, k) <= |values|)
    && forall j :: i <= j < k && AtPlaceholder(s, j) ==> 1 <= NumberAt(s, j) <= |values|
  }

  lemma {:induction false} DigitsOnly(s: string, i: nat)
    requires i <= |s|
    ensures forall j :: i <= j < DigitsEnd(s, i) ==> IsDigit(s[j])
    decreases |s| - i
  {
    if DigitAt(s, i) {
      DigitsOnly(s, i + 1);
    }
  }

  lemma {:induction false} RefusedForMissing(s: string, i: nat, values: seq<string>) returns (k: nat)
    requires i <= |s| && Replaced(s, i, values).Err?
    ensures FirstMissing(s, i, k, values) && Replaced(s, i, values) == Err(NotSupplied(NumberAt(s, k)))
    decreases |s| - i
  {
    if AtPlaceholder(s, i) {
      k := i;
      if 1 <= NumberAt(s, i) <= |values| {
        DigitsOnly(s, i + 1);
        k := RefusedForMissing(s, DigitsEnd(s, i + 1), values);
      }
    } else {
      k := RefusedForMissing(s, i + 1, values);
    }
  }

  lemma {:induction false} AllSupplied(s: string, i: nat, values: seq<string>)
    requires i <= |s| && Replaced(s, i, values).Ok?
    ensures forall j :: i <= j && AtPlaceholder(s, j) ==> 1 <= NumberAt(s, j) <= |values|
    decreases |s| - i
  {
    if AtPlaceholder(s, i) {
      DigitsOnly(s, i + 1);
      AllSupplied(s, DigitsEnd(s, i + 1), values);
    } else if i < |s| {
      AllSupplied(s, i + 1, values);
    }
  }

  /** A binding is refused exactly for the wrong number of values, or for the first number that has none. */
  lemma RefusesExactly(st: Statement, values: seq<string>, index: nat)
    ensures BindTemplate(st, values) == Err(WrongArity) <==> |values| != |st.params|
    ensures BindTemplate(st, values) == Err(NotSupplied(index)) <==>
            && |values| == |st.params|
            && exists k :: 0 <= k < |st.text| && FirstMissing(st.text, 0, k, values) && NumberAt(st.text, k) == index
  {
    if |values| == |st.params| {
      if Replaced(st.text, 0, values).Err? {
        var k := RefusedForMissing(st.text, 0, values);
        assert FirstMissing(st.text, 0, k, values);
      } else {
        AllSupplied(st.text, 0, values);
      }
    }
  }

  /** No `$` in the text has a digit after it. */
  predicate NoPlaceholder(s: string) {
    forall i :: 0 <= i < |s| ==> !AtPlaceholder(s, i)
  }

  predicate LiteralsPlain(t: Pieces) {
    NoPlaceholder(t.literal) && (t.Hole? ==> LiteralsPlain(t.rest))
  }

  /** The string the template stands for: its literals, as they are written, with the values between them. */
  function Woven(t: Pieces, values: seq<string>): string
    requires |values| == |Params(t)|
  {
    match t
    case End(literal) => literal
    case Hole(literal, _, rest) => literal + (values[0] + Woven(rest, values[1..]))
  }

  function Joined(a: Result<string, BindError>, b: Result<string, BindError>): Result<string, BindError> {
    if a.Err? then a else Before(a.value, b)
  }

  lemma JoinedIsBefore(head: string, a: Result<string, BindError>, b: Result<string, BindError>)
    ensures Joined(Before(head, a), b) == Before(head, Joined(a, b))
    ensures Joined(Ok(""), b) == b
  {
    if b.Ok? {
      assert "" + b.value == b.value;
      if a.Ok? {
        assert (head + a.value) + b.value == head + (a.value + b.value);
      }
    }
  }

  lemma {:induction false} DigitsEndInside(a: string, b: string, i: nat)
    requires i <= |a| && !DigitAt(b, 0)
    ensures DigitsEnd(a + b, i) == DigitsEnd(a, i)
    decreases |a| - i
  {
    if i < |a| {
      DigitsEndInside(a, b, i + 1);
    }
  }

  lemma {:induction false} DigitsEndShifts(a: string, b: string, k: nat)
    requires k <= |b|
    ensures DigitsEnd(a + b, |a| + k) == |a| + DigitsEnd(b, k)
    decreases |b| - k
  {
    if k < |b| {
      DigitsEndShifts(a, b, k + 1);
    }
  }

  lemma {:induction false} ReplacedShifts(a: string, b: string, k: nat, values: seq<string>)
    requires k <= |b|
    ensures Replaced(a + b, |a| + k, values) == Replaced(b, k, values)
    decreases |b| - k
  {
    var s := a + b;
    assert AtPlaceholder(s, |a| + k) <==> AtPlaceholder(b, k);
    if AtPlaceholder(b, k) {
      DigitsEndShifts(a, b, k + 1);
      var end := DigitsEnd(b, k + 1);
      assert s[|a| + k + 1..|a| + end] == b[k + 1..end];
      ReplacedShifts(a, b, end, values);
      assert Replaced(s, |a| + k, values) == ReplacedMatch(s, |a| + k, values);
    } else if k < |b| {
      ReplacedShifts(a, b, k + 1, values);
    }
  }

  /** No match reaches across a place where what follows is no digit. */
  lemma {:induction false} ReplacedPieceByPiece(a: string, i: nat, b: string, values: seq<string>)
    requires i <= |a| && !DigitAt(b, 0)
    ensures Replaced(a + b, i, values) == Joined(Replaced(a, i, values), Replaced(b, 0, values))
    decreases |a| - i
  {
    var s := a + b;
    if i == |a| {
      ReplacedShifts(a, b, 0, values);
      JoinedIsBefore("", Ok(""), Replaced(b, 0, values));
    } else if AtPlaceholder(a, i) {
      DigitsEndInside(a, b, i + 1);
      var end := DigitsEnd(a, i + 1);
      assert s[i + 1..end] == a[i + 1..end];
      ReplacedPieceByPiece(a, end, b, values);
      assert Replaced(s, i, values) == ReplacedMatch(s, i, values);
      var index := Number(a[i + 1..end]);
      if 1 <= index <= |values| {
        JoinedIsBefore(values[index - 1], Replaced(a, end, values), Replaced(b, 0, values));
      }
    } else {
      assert !AtPlaceholder(s, i);
      ReplacedPieceByPiece(a, i + 1, b, values);
      JoinedIsBefore([a[i]], Replaced(a, i + 1, values), Replaced(b, 0, values));
    }
  }

  lemma {:induction false} AllDigitsEnd(s: string, i: nat)
    requires i <= |s| && forall j :: i <= j < |s| ==> IsDigit(s[j])
    ensures DigitsEnd(s, i) == |s|
    decreases |s| - i
  {
    if i < |s| {
      AllDigitsEnd(s, i + 1);
    }
  }

  lemma DigitsAreReplaced(digits: string, values: seq<string>)
    requires digits != [] && AllDigits(digits) && 1 <= Number(digits) <= |values|
    ensures Replaced("$" + digits, 0, values) == Ok(values[Number(digits) - 1])
  {
    var s := "$" + digits;
    assert s[1..|s|] == digits;
    assert forall j :: 1 <= j < |s| ==> s[j] in digits;
    AllDigitsEnd(s, 1);
    assert Replaced(s, 0, values) == ReplacedMatch(s, 0, values);
    assert Replaced(s, |s|, values) == Ok("");
    assert values[Number(digits) - 1] + "" == values[Number(digits) - 1];
  }

  lemma PlaceholderIsReplaced(k: nat, values: seq<string>)
    requires 1 <= k <= |values|
    ensures Replaced(Placeholder(k), 0, values) == Ok(values[k - 1])
  {
    NumberReadsDecimal(k);
    DigitsAreReplaced(Decimal(k), values);
  }

  lemma {:induction false} PlainIsKept(s: string, i: nat, values: seq<string>)
    requires i <= |s| && NoPlaceholder(s)
    ensures Replaced(s, i, values) == Ok(s[i..])
    decreases |s| - i
  {
    if i < |s| {
      PlainIsKept(s, i + 1, values);
      assert s[i..] == [s[i]] + s[i + 1..];
    }
  }

  /** With every value empty, a match only ever shortens the text. */
  lemma {:induction false} EmptyValuesShorten(s: string, i: nat, values: seq<string>)
    requires i <= |s| && forall v <- values :: v == ""
    ensures Replaced(s, i, values).Ok? ==> |Replaced(s, i, values).value| <= |s| - i
    ensures Replaced(s, i, values).Ok? && (exists j :: i <= j < |s| && AtPlaceholder(s, j)) ==>
              |Replaced(s, i, values).value| < |s| - i
    decreases |s| - i
  {
    if AtPlaceholder(s, i) {
      assert Replaced(s, i, values) == ReplacedMatch(s, i, values);
      assert forall k :: 0 <= k < |values| ==> values[k] in values;
      EmptyValuesShorten(s, DigitsEnd(s, i + 1), values);
    } else if i < |s| {
      EmptyValuesShorten(s, i + 1, values);
    }
  }

  lemma ReplacedHole(t: Pieces, lifted: nat, values: seq<string>)
    requires t.Hole? && NoDigitFollows(t) && lifted < |values|
    ensures Replaced(Text(t, lifted), 0, values) ==
            Joined(Replaced(t.literal, 0, values),
                Before(values[lifted], Replaced(Text(t.rest, lifted + 1), 0, values)))
  {
    var rest := Text(t.rest, lifted + 1);
    assert !DigitAt(rest, 0);
    ReplacedPieceByPiece(Placeholder(lifted + 1), 0, rest, values);
    ReplacedPieceByPiece(t.literal, 0, Placeholder(lifted + 1) + rest, values);
    PlaceholderIsReplaced(lifted + 1, values);
  }

  lemma {:induction false} BindsPlain(t: Pieces, lifted: nat, values: seq<string>)
    requires NoDigitFollows(t) && LiteralsPlain(t) && |values| == lifted + |Params(t)|
    ensures Replaced(Text(t, lifted), 0, values) == Ok(Woven(t, values[lifted..]))
    decreases t
  {
    PlainIsKept(t.literal, 0, values);
    assert t.literal[0..] == t.literal;
    if t.Hole? {
      ReplacedHole(t, lifted, values);
      BindsPlain(t.rest, lifted + 1, values);
      assert values[lifted..][1..] == values[lifted + 1..];
    }
  }

  /** A `$` and a digit in a literal makes the bound string too short when the values are empty. */
  lemma {:induction false} BindsShort(t: Pieces, lifted: nat, values: seq<string>)
    requires NoDigitFollows(t) && |values| == lifted + |Params(t)|
    requires forall v <- values :: v == ""
    ensures var bound := Replaced(Text(t, lifted), 0, values);
            bound.Ok? ==>
              && |bound.value| <= |Woven(t, values[lifted..])|
              && (!LiteralsPlain(t) ==> |bound.value| < |Woven(t, values[lifted..])|)
    decreases t
  {
    EmptyValuesShorten(t.literal, 0, values);
    if t.Hole? {
      ReplacedHole(t, lifted, values);
      BindsShort(t.rest, lifted + 1, values);
      assert values[lifted..][1..] == values[lifted + 1..];
    }
  }

  /**
   * The round trip, and exactly when it works. A template that is read at all binds back to its
   * literals and the values for every choice of values if and only if no literal of it has a `$`
   * with a digit after it.
   */
  lemma BindsBackExactly(t: Pieces, tail: string)
    requires Written(t) && NoDigitFollows(t)
    ensures Scan(Source(t) + tail, 0, 0).Ok?
    ensures (forall values: seq<string> :: |values| == |Params(t)| ==>
               BindTemplate(Scan(Source(t) + tail, 0, 0).value, values) == Ok(Woven(t, values)))
            <==> LiteralsPlain(t)
  {
    ReadAsWritten(t, tail, 0);
    if LiteralsPlain(t) {
      forall values: seq<string> | |values| == |Params(t)|
        ensures BindTemplate(Scan(Source(t) + tail, 0, 0).value, values) == Ok(Woven(t, values))
      {
        BindsPlain(t, 0, values);
        assert values[0..] == values;
      }
    } else {
      var empty := seq(|Params(t)|, _ => "");
      BindsShort(t, 0, empty);
      assert empty[0..] == empty;
      assert BindTemplate(Scan(Source(t) + tail, 0, 0).value, empty) != Ok(Woven(t, empty));
    }
  }

  /** What is bound from a backslash on that has a `$` and a digit after it. */
  function BoundFromBackslash(s: string, i: nat, values: seq<string>): Result<string, BindError>
    requires i < |s| && AtPlaceholder(s, i + 1)
  {
    var end := DigitsEnd(s, i + 2);
    var index := Number(s[i + 2..end]);
    if 1 <= index <= |values| then Before("\\" + values[index - 1], Replaced(s, end, values))
        else Err(NotSupplied(index))
  }

  lemma BackslashIsKept(s: string, i: nat, values: seq<string>)
    requires i < |s| && s[i] == '\\' && AtPlaceholder(s, i + 1)
    ensures Replaced(s, i, values) == BoundFromBackslash(s, i, values)
  {
    var end := DigitsEnd(s, i + 2);
    var index := Number(s[i + 2..end]);
    assert Replaced(s, i + 1, values) == ReplacedMatch(s, i + 1, values);
    if 1 <= index <= |values| && Replaced(s, end, values).Ok? {
      var rest := Replaced(s, end, values).value;
      assert "\\" + (values[index - 1] + rest) == ("\\" + values[index - 1]) + rest;
    }
  }

  /**
   * The advice to escape a `$` that has a digit after it does not help, wherever in a template that is.
   * The scan keeps the backslash in the text, and the `$` after it is matched all the same: behind the
   * backslash stands the value of that number, and if there is none the binding is refused, as it
   * always is in a template without an interpolation.
   */
  lemma EscapingDoesNotHelp(t: Pieces, tail: string, i: nat, values: seq<string>)
    requires Written(t) && NoDigitFollows(t) && |values| == |Params(t)|
    requires i < |Text(t, 0)| && Text(t, 0)[i] == '\\' && AtPlaceholder(Text(t, 0), i + 1)
    ensures Scan(Source(t) + tail, 0, 0).Ok?
    ensures BindTemplate(Scan(Source(t) + tail, 0, 0).value, values) ==
            Joined(Replaced(Text(t, 0)[..i], 0, values), BoundFromBackslash(Text(t, 0), i, values))
    ensures t.End? ==> BindTemplate(Scan(Source(t) + tail, 0, 0).value, values).Err?
  {
    ReadAsWritten(t, tail, 0);
    var s := Text(t, 0);
    assert s == s[..i] + s[i..];
    ReplacedPieceByPiece(s[..i], 0, s[i..], values);
    ReplacedShifts(s[..i], s[i..], 0, values);
    BackslashIsKept(s, i, values);
  }
}
