/** Texts as the scripts and the editor compare and store them. */
module Texts {
  import opened Records
  import Sequences

  /** What `strip` takes off the ends of a text. */
  predicate Space(c: char) {
    || '\t' <= c <= '\r' || '\U{1C}' <= c <= ' ' || c == '\U{85}' || c == '\U{A0}'
    || c == '\U{1680}' || '\U{2000}' <= c <= '\U{200A}' || '\U{2028}' <= c <= '\U{2029}'
    || c == '\U{202F}' || c == '\U{205F}' || c == '\U{3000}'
  }

  predicate Blank(s: string) {
    forall c | c in s :: Space(c)
  }

  function TrimLeft(s: string): string {
    if s == "" || !Space(s[0]) then s else TrimLeft(s[1..])
  }

  function TrimRight(s: string): string {
    if s == "" || !Space(s[|s| - 1]) then s else TrimRight(s[..|s| - 1])
  }

  /** The text less the spaces around it. */
  function Stripped(s: string): string {
    TrimRight(TrimLeft(s))
  }

  /** A text passengers read is stored stripped, and a blank one as none. */
  function Stored(v: Option<string>): Option<string> {
    if v.None? || Blank(v.value) then None else Some(Stripped(v.value))
  }

  predicate Tight(s: string) {
    s == "" || (!Space(s[0]) && !Space(s[|s| - 1]))
  }

  lemma {:induction false} TrimLeftIs(s: string) returns (pre: string)
    ensures Blank(pre) && s == pre + TrimLeft(s)
    ensures TrimLeft(s) == "" || !Space(TrimLeft(s)[0])
  {
    pre := "";
    if s != "" && Space(s[0]) {
      pre := TrimLeftIs(s[1..]);
      pre := [s[0]] + pre;
    }
  }

  lemma {:induction false} TrimRightIs(s: string) returns (post: string)
    ensures Blank(post) && s == TrimRight(s) + post
    ensures TrimRight(s) == "" || !Space(TrimRight(s)[|TrimRight(s)| - 1])
  {
    post := "";
    if s != "" && Space(s[|s| - 1]) {
      post := TrimRightIs(s[..|s| - 1]);
      post := post + [s[|s| - 1]];
    }
  }

  /** Stripping takes spaces, and nothing but spaces, off both ends. */
  lemma StrippedIs(s: string) returns (pre: string, post: string)
    ensures s == pre + Stripped(s) + post && Blank(pre) && Blank(post) && Tight(Stripped(s))
  {
    pre := TrimLeftIs(s);
    post := TrimRightIs(TrimLeft(s));
    hide TrimLeft, TrimRight, Space;
    if Stripped(s) != "" {
      assert Stripped(s)[0] == TrimLeft(s)[0];
    }
  }

  lemma {:induction false} TightIsStripped(s: string)
    requires Tight(s)
    ensures Stripped(s) == s
  {
  }

  /** A stripped text is its own. */
  lemma StrippedTwice(s: string)
    ensures Stripped(Stripped(s)) == Stripped(s)
  {
    var pre, post := StrippedIs(s);
    TightIsStripped(Stripped(s));
  }

  /** Nothing is left of a blank text, and of no other. */
  lemma BlankStrips(s: string)
    ensures Blank(s) <==> Stripped(s) == ""
  {
    var pre, post := StrippedIs(s);
    hide Stripped, Space;
    if Stripped(s) != "" {
      assert Stripped(s)[0] in s;
    }
  }
}
