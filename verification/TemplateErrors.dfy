/** Why a template does not expand: where expansion gets stuck, and on what. */
module TemplateErrors {
  import opened Common
  import opened Template
  import Text

  /** The text begins with what gives this error: a closing brace, an opening
      one that is never closed, or a placeholder of an unknown name. */
  predicate Stuck(rest: string, variables: Variables, e: TemplateError) {
    match e
    case UnmatchedBrace => rest != [] && rest[0] == '}'
    case Unterminated => rest != [] && rest[0] == '{' && '}' !in rest
    case UnknownVariable(key) =>
      && rest != [] && rest[0] == '{' && key !in variables
      && exists n :: 1 <= n < |rest| && rest[n] == '}' && '}' !in rest[1..n] && Text.Trim(rest[1..n]) == key
  }

  /** All before the n-th character expands, and there expansion is stuck. */
  predicate StuckAt(template: string, n: nat, variables: Variables, e: TemplateError) {
    n <= |template| && Expanded(template[..n], variables).Ok? && Stuck(template[n..], variables, e)
  }

  lemma {:induction false} NoBraceToTheEnd(s: string)
    requires '}' !in s
    ensures UntilBrace(s) == |s|
  {
    if s == [] {
    } else {
      NoBraceToTheEnd(s[1..]);
    }
  }

  lemma StuckFails(rest: string, variables: Variables, e: TemplateError)
    requires Stuck(rest, variables, e)
    ensures Expanded(rest, variables) == Err(e)
  {
    match e
    case UnmatchedBrace =>
    case Unterminated => NoBraceToTheEnd(rest[1..]);
    case UnknownVariable(key) =>
      var n :| 1 <= n < |rest| && rest[n] == '}' && '}' !in rest[1..n] && Text.Trim(rest[1..n]) == key;
      assert rest == "{" + rest[1..n] + "}" + rest[n + 1..];
      ExpandPlaceholder(rest[1..n], rest[n + 1..], variables);
  }

  lemma StuckHere(template: string, variables: Variables)
    requires Expanded(template, variables).Err?
    requires template[0] == '{' ==>
      var n := UntilBrace(template[1..]);
      n == |template[1..]| || Text.Trim(template[1..1 + n]) !in variables
    requires template[0] == '{' || template[0] == '}'
    ensures Stuck(template, variables, Expanded(template, variables).error)
  {
    if template[0] == '{' {
      var n := UntilBrace(template[1..]);
      NoBraceBefore(template[1..]);
      assert template[1..][..n] == template[1..1 + n];
      if n == |template[1..]| {
        assert template == ['{'] + template[1..];
      } else {
        assert template[1 + n] == '}' && '}' !in template[1..1 + n];
      }
    }
  }

  lemma LaterInPlaceholder(template: string, variables: Variables, n: nat, k: nat)
    requires template != [] && template[0] == '{' && n == UntilBrace(template[1..]) < |template[1..]|
    requires Text.Trim(template[1..1 + n]) in variables
    requires StuckAt(template[n + 2..], k, variables, Expanded(template, variables).error)
      <== Expanded(template, variables).Err?
    requires Expanded(template, variables).Err?
    ensures StuckAt(template, n + 2 + k, variables, Expanded(template, variables).error)
  {
    var raw, before := template[1..1 + n], template[n + 2..][..k];
    NoBraceBefore(template[1..]);
    assert template[1..][..n] == raw;
    assert template[..n + 2 + k] == "{" + raw + "}" + before;
    ExpandPlaceholder(raw, before, variables);
    assert template[n + 2 + k..] == template[n + 2..][k..];
  }

  lemma {:induction false} GetsStuck(template: string, variables: Variables) returns (n: nat)
    requires Expanded(template, variables).Err?
    ensures StuckAt(template, n, variables, Expanded(template, variables).error)
    decreases |template|
  {
    var m := UntilBrace(template[1..]);
    if template[0] == '{' && m < |template[1..]| && Text.Trim(template[1..1 + m]) in variables {
      var k := GetsStuck(template[m + 2..], variables);
      LaterInPlaceholder(template, variables, m, k);
      n := m + 2 + k;
    } else if template[0] == '{' || template[0] == '}' {
      StuckHere(template, variables);
      n := 0;
      assert template[..0] == [] && template[0..] == template;
    } else {
      var k := GetsStuck(template[1..], variables);
      n := 1 + k;
      assert template[..n][1..] == template[1..][..k] && template[n..] == template[1..][k..];
    }
  }

  /** A template fails with an error exactly when it begins with text that
      expands and what follows begins with the cause of that error. */
  lemma FailsExactly(template: string, variables: Variables, e: TemplateError)
    ensures Expanded(template, variables) == Err(e) <==> exists n :: StuckAt(template, n, variables, e)
  {
    if Expanded(template, variables) == Err(e) {
      var n := GetsStuck(template, variables);
    }
    if n: nat :| StuckAt(template, n, variables, e) {
      StuckFails(template[n..], variables, e);
      assert template == template[..n] + template[n..];
      ExpandConcatenation(template[..n], template[n..], variables);
    }
  }
}
