/** Operations on strings that the modules share. */
module Text {

  /** The characters with Unicode property White_Space. */
  predicate IsSpace(c: char) {
    || 9 <= c as int <= 13
    || 0x2000 <= c as int <= 0x200A
    || c as int in {0x20, 0x85, 0xA0, 0x1680, 0x2028, 0x2029, 0x202F, 0x205F, 0x3000}
  }

  function TrimStart(s: string): string {
    if s != [] && IsSpace(s[0]) then TrimStart(s[1..]) else s
  }

  function TrimEnd(s: string): string {
    if s != [] && IsSpace(s[|s| - 1]) then TrimEnd(s[..|s| - 1]) else s
  }

  function Trim(s: string): string {
    TrimEnd(TrimStart(s))
  }

  predicate AllSpace(s: string) {
    forall i :: 0 <= i < |s| ==> IsSpace(s[i])
  }

  /** Begins and ends with something other than white space, or is empty. */
  predicate Trimmed(s: string) {
    s == [] || (!IsSpace(s[0]) && !IsSpace(s[|s| - 1]))
  }

  lemma {:induction false} TrimStartOf(pre: string, s: string)
    requires AllSpace(pre) && (s == [] || !IsSpace(s[0]))
    ensures TrimStart(pre + s) == s
    decreases |pre|
  {
    if pre == [] {
      assert pre + s == s;
    } else {
      assert (pre + s)[1..] == pre[1..] + s;
      TrimStartOf(pre[1..], s);
    }
  }

  lemma {:induction false} TrimEndOf(s: string, post: string)
    requires AllSpace(post) && (s == [] || !IsSpace(s[|s| - 1]))
    ensures TrimEnd(s + post) == s
    decreases |post|
  {
    if post == [] {
      assert s + post == s;
    } else {
      assert (s + post)[..|s + post| - 1] == s + post[..|post| - 1];
      TrimEndOf(s, post[..|post| - 1]);
    }
  }

  /** White space around a word makes no difference to its trimmed form. */
  lemma TrimIgnoresPadding(pre: string, s: string, post: string)
    requires AllSpace(pre) && AllSpace(post) && Trimmed(s)
    ensures Trim(pre + s + post) == s
  {
    if s == [] {
      TrimStartOf(pre + s + post, []);
      assert pre + s + post + [] == pre + s + post;
    } else {
      assert pre + s + post == pre + (s + post);
      TrimStartOf(pre, s + post);
      TrimEndOf(s, post);
    }
  }

  /** Among the ASCII characters just the space and those from tab to carriage
      return are trimmed away. */
  lemma TrimsBlanks(c: char)
    requires c as int < 128
    ensures Trim([c]) == [] <==> c == ' ' || '\t' <= c <= '\r'
  {
    assert [c][1..] == [] && TrimStart([]) == [] && TrimEnd([]) == [];
    assert '\t' as int == 9 && '\r' as int == 13 && ' ' as int == 0x20;
    assert IsSpace(c) <==> c == ' ' || '\t' <= c <= '\r';
    assert !IsSpace(c) ==> TrimStart([c]) == [c] && TrimEnd([c]) == [c];
  }

  function LowerChar(c: char): char {
    if 'A' <= c <= 'Z' then (c as int + 32) as char else c
  }

  /** ASCII letters to lower case; every other character stays. */
  function Lower(s: string): string {
    seq(|s|, i requires 0 <= i < |s| => LowerChar(s[i]))
  }
}
