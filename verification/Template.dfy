/** Overlay text templates: `{name}` stands for a variable's value. */
module Template {
  import opened Common
  import Text

  datatype TemplateError = Unterminated | UnknownVariable(key: string) | UnmatchedBrace

  type Variables = map<string, string>

  function VariablesFor(pipelineId: string, variables: Variables): Variables {
    variables["camera_id" := pipelineId]["pipeline_id" := pipelineId]
  }

  // ------------------------------------------------------------------
  // What a template says
  // ------------------------------------------------------------------

  /** `raw` is what stands between the braces, white space included. */
  datatype Piece = Literal(c: char) | Placeholder(raw: string)

  predicate WellFormed(piece: Piece) {
    match piece
    case Literal(c) => c != '{' && c != '}'
    case Placeholder(raw) => '}' !in raw
  }

  function Source(pieces: seq<Piece>): string {
    if pieces == [] then []
    else SourceOf(pieces[0]) + Source(pieces[1..])
  }

  function SourceOf(piece: Piece): string {
    match piece
    case Literal(c) => [c]
    case Placeholder(raw) => "{" + raw + "}"
  }

  predicate Known(piece: Piece, variables: Variables) {
    piece.Placeholder? ==> Text.Trim(piece.raw) in variables
  }

  function ValueOf(piece: Piece, variables: Variables): string
    requires Known(piece, variables)
  {
    match piece
    case Literal(c) => [c]
    case Placeholder(raw) => variables[Text.Trim(raw)]
  }

  function Filled(pieces: seq<Piece>, variables: Variables): string
    requires forall i :: 0 <= i < |pieces| ==> Known(pieces[i], variables)
  {
    if pieces == [] then []
    else ValueOf(pieces[0], variables) + Filled(pieces[1..], variables)
  }

  /** Pieces of which a template is made, with every variable known. */
  ghost predicate Means(template: string, pieces: seq<Piece>, variables: Variables) {
    && Source(pieces) == template
    && forall i :: 0 <= i < |pieces| ==> WellFormed(pieces[i]) && Known(pieces[i], variables)
  }

  // ------------------------------------------------------------------
  // Expansion
  // ------------------------------------------------------------------

  /** The distance to the first closing brace, or to the end. */
  function UntilBrace(s: string): (n: nat)
    ensures n <= |s|
  {
    if s == [] || s[0] == '}' then 0 else 1 + UntilBrace(s[1..])
  }

  function Prefixed(prefix: string, r: Result<string, TemplateError>): Result<string, TemplateError> {
    match r
    case Ok(s) => Ok(prefix + s)
    case Err(e) => Err(e)
  }

  function Expanded(template: string, variables: Variables): Result<string, TemplateError>
    decreases |template|
  {
    if template == [] then Ok([])
    else if template[0] == '{' then
      var n := UntilBrace(template[1..]);
      if n == |template[1..]| then Err(Unterminated)
      else
        var key := Text.Trim(template[1..1 + n]);
        if key in variables then Prefixed(variables[key], Expanded(template[n + 2..], variables))
        else Err(UnknownVariable(key))
    else if template[0] == '}' then Err(UnmatchedBrace)
    else Prefixed([template[0]], Expanded(template[1..], variables))
  }

  method ExpandOverlayTemplate(template: string, variables: Variables) returns (r: Result<string, TemplateError>)
    ensures r == Expanded(template, variables)
  {
    var output := "";
    var i := 0;
    assert template[0..] == template;
    PrefixedEmpty(Expanded(template, variables));
    while i < |template|
      invariant i <= |template|
      invariant Prefixed(output, Expanded(template[i..], variables)) == Expanded(template, variables)
    {
      ghost var before, rest := output, template[i..];
      var ch := template[i];
      i := i + 1;
      assert rest[1..] == template[i..];
      if ch == '{' {
        ghost var start, n := i, UntilBrace(rest[1..]);
        var key, terminated;
        key, i, terminated := ReadKey(template, i);
        if !terminated {
          return Err(Unterminated);
        }
        assert key == rest[1..1 + n];
        assert rest[n + 2..] == template[i..];
        key := Text.Trim(key);
        if key !in variables {
          return Err(UnknownVariable(key));
        }
        output := output + variables[key];
        PrefixedTwice(before, variables[key], Expanded(template[i..], variables));
      } else if ch == '}' {
        return Err(UnmatchedBrace);
      } else {
        output := output + [ch];
        PrefixedTwice(before, [ch], Expanded(template[i..], variables));
      }
    }
    assert output + [] == output;
    return Ok(output);
  }

  /** The characters up to the next closing brace, which is passed over. */
  method ReadKey(template: string, start: nat) returns (key: string, i: nat, terminated: bool)
    requires start <= |template|
    ensures var n := UntilBrace(template[start..]);
      && terminated == (start + n < |template|)
      && key == template[start..start + n]
      && i == if terminated then start + n + 1 else start + n
  {
    ghost var n := UntilBrace(template[start..]);
    FirstBrace(template, start);
    key, i, terminated := "", start, false;
    while i < |template| && !terminated
      invariant start <= i <= |template|
      invariant if terminated then i == start + n + 1 && key == template[start..start + n]
                else i - start <= n && key == template[start..i]
    {
      var next := template[i];
      i := i + 1;
      if next == '}' {
        terminated := true;
      } else {
        key := key + [next];
      }
    }
  }

  lemma FirstBrace(s: string, start: nat)
    requires start <= |s|
    ensures var n := UntilBrace(s[start..]);
      && start + n <= |s|
      && (forall k :: start <= k < start + n ==> s[k] != '}')
      && (start + n < |s| ==> s[start + n] == '}')
  {
    var n := UntilBrace(s[start..]);
    NoBraceBefore(s[start..]);
    forall k | start <= k < start + n ensures s[k] != '}' {
      assert s[k] == s[start..][..n][k - start];
    }
  }

  lemma PrefixedEmpty(r: Result<string, TemplateError>)
    ensures Prefixed([], r) == r
  {
    if r.Ok? {
      assert [] + r.value == r.value;
    }
  }

  lemma PrefixedTwice(a: string, b: string, r: Result<string, TemplateError>)
    ensures Prefixed(a, Prefixed(b, r)) == Prefixed(a + b, r)
  {
    if r.Ok? {
      assert a + (b + r.value) == (a + b) + r.value;
    }
  }

  // ------------------------------------------------------------------
  // Composition
  // ------------------------------------------------------------------

  lemma {:induction false} BraceInFirst(a: string, b: string)
    ensures UntilBrace(a) < |a| ==> UntilBrace(a + b) == UntilBrace(a)
    ensures UntilBrace(a) == |a| ==> UntilBrace(a + b) == |a| + UntilBrace(b)
    decreases |a|
  {
    if a == [] {
      assert a + b == b;
    } else {
      assert (a + b)[1..] == a[1..] + b;
      BraceInFirst(a[1..], b);
    }
  }

  /** Expansion goes left to right, once: what the first part of a template
      expands to does not depend on what follows, and neither does a failure,
      other than that of a placeholder the second part may still close. */
  lemma {:induction false} ExpandConcatenation(a: string, b: string, variables: Variables)
    ensures var r := Expanded(a, variables);
      && (r.Ok? ==> Expanded(a + b, variables) == Prefixed(r.value, Expanded(b, variables)))
      && (r.Err? && r.error != Unterminated ==> Expanded(a + b, variables) == r)
    decreases |a|
  {
    if a == [] {
      assert a + b == b;
      PrefixedEmpty(Expanded(b, variables));
    } else if a[0] == '{' {
      var n := UntilBrace(a[1..]);
      assert (a + b)[1..] == a[1..] + b;
      BraceInFirst(a[1..], b);
      if n < |a[1..]| {
        assert (a + b)[1..1 + n] == a[1..1 + n];
        assert (a + b)[n + 2..] == a[n + 2..] + b;
        ExpandConcatenation(a[n + 2..], b, variables);
        var key, r := Text.Trim(a[1..1 + n]), Expanded(a[n + 2..], variables);
        if key in variables && r.Ok? {
          PrefixedTwice(variables[key], r.value, Expanded(b, variables));
        }
      }
    } else if a[0] != '}' {
      assert (a + b)[1..] == a[1..] + b;
      ExpandConcatenation(a[1..], b, variables);
      var r := Expanded(a[1..], variables);
      if r.Ok? {
        PrefixedTwice([a[0]], r.value, Expanded(b, variables));
      }
    }
  }

  // ------------------------------------------------------------------
  // Meaning
  // ------------------------------------------------------------------

  lemma {:induction false} BraceAfter(raw: string, rest: string)
    requires '}' !in raw
    ensures UntilBrace(raw + "}" + rest) == |raw|
    decreases |raw|
  {
    if raw == [] {
    } else {
      assert (raw + "}" + rest)[1..] == raw[1..] + "}" + rest;
      BraceAfter(raw[1..], rest);
    }
  }

  lemma ExpandPlaceholder(raw: string, rest: string, variables: Variables)
    requires '}' !in raw
    ensures Expanded("{" + raw + "}" + rest, variables) == (
        var key := Text.Trim(raw);
        if key in variables then Prefixed(variables[key], Expanded(rest, variables)) else Err(UnknownVariable(key)))
  {
    var template := "{" + raw + "}" + rest;
    assert template[1..] == raw + "}" + rest;
    BraceAfter(raw, rest);
    assert template[1..1 + |raw|] == raw;
    assert template[|raw| + 2..] == rest;
  }

  lemma {:induction false} MeaningExpands(pieces: seq<Piece>, variables: Variables)
    requires forall i :: 0 <= i < |pieces| ==> WellFormed(pieces[i]) && Known(pieces[i], variables)
    ensures Expanded(Source(pieces), variables) == Ok(Filled(pieces, variables))
    decreases |pieces|
  {
    if pieces == [] {
    } else {
      var rest := Source(pieces[1..]);
      MeaningExpands(pieces[1..], variables);
      match pieces[0]
      case Literal(c) => assert ([c] + rest)[1..] == rest;
      case Placeholder(raw) => ExpandPlaceholder(raw, rest, variables);
    }
  }

  lemma AtPlaceholder(template: string)
    requires template != [] && template[0] == '{' && UntilBrace(template[1..]) < |template[1..]|
    ensures var n := UntilBrace(template[1..]);
      '}' !in template[1..1 + n] && template == "{" + template[1..1 + n] + "}" + template[n + 2..]
  {
    NoBraceBefore(template[1..]);
    var n := UntilBrace(template[1..]);
    assert template[1..][..n] == template[1..1 + n];
    assert template[n + 1] == template[1..][n];
  }

  lemma MeansMore(piece: Piece, template: string, rest: seq<Piece>, variables: Variables) returns (pieces: seq<Piece>)
    requires Means(template, rest, variables) && WellFormed(piece) && Known(piece, variables)
    ensures Means(SourceOf(piece) + template, pieces, variables)
  {
    pieces := [piece] + rest;
    assert pieces[1..] == rest;
  }

  /** What is left to expand behind the first piece. */
  function Behind(template: string): string
    requires template != []
  {
    if template[0] == '{' && UntilBrace(template[1..]) < |template[1..]|
    then template[UntilBrace(template[1..]) + 2..]
    else template[1..]
  }

  function FirstPiece(template: string): Piece
    requires template != []
  {
    if template[0] == '{' then Placeholder(template[1..1 + UntilBrace(template[1..])]) else Literal(template[0])
  }

  lemma FirstPieceFits(template: string, variables: Variables)
    requires template != [] && Expanded(template, variables).Ok?
    ensures Expanded(Behind(template), variables).Ok?
    ensures WellFormed(FirstPiece(template)) && Known(FirstPiece(template), variables)
    ensures template == SourceOf(FirstPiece(template)) + Behind(template)
  {
    if template[0] == '{' {
      AtPlaceholder(template);
    } else {
      assert template == [template[0]] + template[1..];
    }
  }

  lemma {:induction false} ExpansionHasMeaning(template: string, variables: Variables) returns (pieces: seq<Piece>)
    requires Expanded(template, variables).Ok?
    ensures Means(template, pieces, variables)
    decreases |template|
  {
    if template == [] {
      pieces := [];
    } else {
      FirstPieceFits(template, variables);
      var rest := ExpansionHasMeaning(Behind(template), variables);
      pieces := MeansMore(FirstPiece(template), Behind(template), rest, variables);
    }
  }

  lemma {:induction false} NoBraceBefore(s: string)
    ensures '}' !in s[..UntilBrace(s)]
    ensures UntilBrace(s) < |s| ==> s[UntilBrace(s)] == '}'
    decreases |s|
  {
    if s == [] || s[0] == '}' {
    } else {
      NoBraceBefore(s[1..]);
      assert s[..UntilBrace(s)] == [s[0]] + s[1..][..UntilBrace(s[1..])];
    }
  }

  /** A template expands exactly when it is made of characters other than braces
      and of placeholders of known variables, and then to those characters and
      the values as they are: braces in a value are never expanded again. */
  lemma ExpandsExactly(template: string, variables: Variables, output: string)
    ensures Expanded(template, variables) == Ok(output)
      <==> exists pieces :: Means(template, pieces, variables) && Filled(pieces, variables) == output
  {
    if Expanded(template, variables) == Ok(output) {
      var pieces := ExpansionHasMeaning(template, variables);
      MeaningExpands(pieces, variables);
    }
    forall pieces | Means(template, pieces, variables) && Filled(pieces, variables) == output
      ensures Expanded(template, variables) == Ok(output)
    {
      MeaningExpands(pieces, variables);
    }
  }

  /** The pipeline's own names, however padded, stand for its id, whatever the
      caller has put in the variables. */
  lemma NamesStandForTheId(pipelineId: string, variables: Variables, before: string, after: string, name: string)
    requires (name == "camera_id" || name == "pipeline_id") && Text.AllSpace(before) && Text.AllSpace(after)
    ensures Expanded("{" + (before + name + after) + "}", VariablesFor(pipelineId, variables)) == Ok(pipelineId)
  {
    var raw := before + name + after;
    NoBraceIn(before, name, after);
    Text.TrimIgnoresPadding(before, name, after);
    var all := VariablesFor(pipelineId, variables);
    assert name in all && all[name] == pipelineId;
    ExpandPlaceholder(raw, [], all);
    assert ("{" + raw + "}") + [] == "{" + raw + "}";
    assert pipelineId + [] == pipelineId;
  }

  /** In particular spaces, tabs and line ends around them make no difference. */
  lemma BlanksAreIgnored(pipelineId: string, variables: Variables, before: string, after: string)
    requires forall c :: c in before || c in after ==> c == ' ' || c == '\t' || c == '\n' || c == '\r'
    ensures Expanded("{" + (before + "camera_id" + after) + "}", VariablesFor(pipelineId, variables)) == Ok(pipelineId)
    ensures Expanded("{" + (before + "pipeline_id" + after) + "}", VariablesFor(pipelineId, variables)) == Ok(pipelineId)
  {
    assert Text.IsSpace(' ') && Text.IsSpace('\t') && Text.IsSpace('\n') && Text.IsSpace('\r');
    assert forall i :: 0 <= i < |before| ==> before[i] in before;
    assert forall i :: 0 <= i < |after| ==> after[i] in after;
    NamesStandForTheId(pipelineId, variables, before, after, "camera_id");
    NamesStandForTheId(pipelineId, variables, before, after, "pipeline_id");
  }

  lemma NoBraceIn(before: string, name: string, after: string)
    requires (name == "camera_id" || name == "pipeline_id") && Text.AllSpace(before) && Text.AllSpace(after)
    ensures '}' !in before + name + after && Text.Trimmed(name)
  {
    assert !Text.IsSpace('}') && !Text.IsSpace('c') && !Text.IsSpace('p') && !Text.IsSpace('d');
    assert '}' !in before && '}' !in name && '}' !in after;
  }

  /** Only the other variables of the caller matter. */
  lemma CallersNamesIgnored(pipelineId: string, a: Variables, b: Variables, template: string)
    requires a - {"camera_id", "pipeline_id"} == b - {"camera_id", "pipeline_id"}
    ensures Expanded(template, VariablesFor(pipelineId, a)) == Expanded(template, VariablesFor(pipelineId, b))
  {
    var x, y, own := VariablesFor(pipelineId, a), VariablesFor(pipelineId, b), {"camera_id", "pipeline_id"};
    forall key ensures key in x <==> key in y
               ensures key in x && key in y ==> x[key] == y[key]
    {
      assert key !in own && key in a ==> key in a - own && (a - own)[key] == a[key];
      assert key !in own && key in b ==> key in b - own && (b - own)[key] == b[key];
    }
    assert x == y;
  }
}
