/**
  The normal form of an e-mail address, in which invitations store it and accepted ones hand it on: stripped, in
  lower case, at most 320 characters, with an at sign inside.  Characters beyond ASCII keep their case and count
  as no space.
*/
module Addresses {
  import opened Common

  const MAX_EMAIL_LENGTH := 320

  predicate IsSpace(c: char) {
    c == ' ' || '\U{0009}' <= c <= '\U{000D}' || '\U{001C}' <= c <= '\U{001F}'
  }

  function StripLeft(s: string): string {
    if s != [] && IsSpace(s[0]) then StripLeft(s[1..]) else s
  }

  function StripRight(s: string): string {
    if s != [] && IsSpace(s[|s| - 1]) then StripRight(s[..|s| - 1]) else s
  }

  function Strip(s: string): string {
    StripRight(StripLeft(s))
  }

  function LowerChar(c: char): char {
    if 'A' <= c <= 'Z' then c + 'a' - 'A' else c
  }

  function Lower(s: string): (r: string)
    ensures |r| == |s| && forall i :: 0 <= i < |s| ==> r[i] == LowerChar(s[i])
  {
    if s == [] then [] else Lower(s[..|s| - 1]) + [LowerChar(s[|s| - 1])]
  }

  predicate IsAddress(s: string) {
    0 < |s| <= MAX_EMAIL_LENGTH && '@' in s && s[0] != '@' && s[|s| - 1] != '@'
  }

  function Normalize(email: string): Option<string> {
    var normal := Lower(Strip(email));
    if IsAddress(normal) then Some(normal) else None
  }

  lemma {:induction false} StripRightEnds(s: string)
    ensures var r := StripRight(s); r <= s && (r != [] ==> !IsSpace(r[|r| - 1]))
  {
    if s != [] && IsSpace(s[|s| - 1]) {
      StripRightEnds(s[..|s| - 1]);
    }
  }

  lemma {:induction false} StripLeftStarts(s: string)
    ensures var r := StripLeft(s); r != [] ==> !IsSpace(r[0])
  {
    if s != [] && IsSpace(s[0]) {
      StripLeftStarts(s[1..]);
    }
  }

  /** A normal form is its own normal form. */
  lemma NormalizeIsIdempotent(email: string)
    requires Normalize(email).Some?
    ensures Normalize(Normalize(email).value) == Normalize(email)
  {
    var stripped := Strip(email);
    var normal := Lower(stripped);
    StripLeftStarts(email);
    StripRightEnds(StripLeft(email));
    assert stripped[0] == StripLeft(email)[0];
    assert !IsSpace(normal[0]) && !IsSpace(normal[|normal| - 1]);
    assert Lower(normal) == normal;
  }

  lemma {:induction false} StripLeftKeeps(s: string)
    ensures |StripLeft(s)| <= |s|
    ensures |StripLeft(s)| == |s| <==> s == [] || !IsSpace(s[0])
  {
    if s != [] && IsSpace(s[0]) {
      StripLeftKeeps(s[1..]);
    }
  }

  /** The normal forms: no space around, no capital letter, and an at sign inside. */
  lemma NormalFormIff(s: string)
    ensures Normalize(s) == Some(s) <==>
            && 0 < |s| <= 320 && '@' in s && s[0] != '@' && s[|s| - 1] != '@'
            && !IsSpace(s[0]) && !IsSpace(s[|s| - 1])
            && forall i :: 0 <= i < |s| ==> !('A' <= s[i] <= 'Z')
  {
    StripLeftKeeps(s);
    StripRightEnds(StripLeft(s));
    StripLeftStarts(s);
    if Normalize(s) == Some(s) {
      assert |Strip(s)| == |s| && Strip(s) == s;
      assert forall i :: 0 <= i < |s| ==> s[i] == LowerChar(s[i]);
    } else if s != [] && !IsSpace(s[0]) && !IsSpace(s[|s| - 1]) && forall i :: 0 <= i < |s| ==> !('A' <= s[i] <= 'Z') {
      assert Strip(s) == s;
      assert Lower(s) == s;
    }
  }

  lemma {:induction false} StripLeftPrefix(s: string, c: char)
    requires IsSpace(c)
    ensures StripLeft(s + [c]) == if StripLeft(s) == [] then [] else StripLeft(s) + [c]
  {
    if s != [] && IsSpace(s[0]) {
      assert (s + [c])[1..] == s[1..] + [c];
      StripLeftPrefix(s[1..], c);
    } else if s == [] {
      assert [c][1..] == [];
    }
  }

  /** Spaces around an address and capital letters in it make no difference. */
  lemma SpacesAndCapitalsAreIgnored(s: string, c: char)
    requires IsSpace(c)
    ensures Normalize([c] + s) == Normalize(s)
    ensures Normalize(s + [c]) == Normalize(s)
    ensures Normalize(Lower(s)) == Normalize(s)
  {
    assert ([c] + s)[1..] == s;
    StripLeftPrefix(s, c);
    assert StripLeft(s) != [] ==> (StripLeft(s) + [c])[..|StripLeft(s)|] == StripLeft(s);
    LowerStripped(s);
  }

  lemma LowerStripped(s: string)
    ensures Lower(Strip(Lower(s))) == Lower(Strip(s))
  {
    LowerStripLeft(s);
    LowerStripRight(StripLeft(s));
    LowerTwice(Strip(s), Lower(Strip(s)));
  }

  lemma LowerTwice(s: string, lower: string)
    requires lower == Lower(s)
    ensures Lower(lower) == lower
  {
    assert forall i :: 0 <= i < |s| ==> LowerChar(lower[i]) == lower[i];
  }

  lemma {:induction false} LowerStripLeft(s: string)
    ensures StripLeft(Lower(s)) == Lower(StripLeft(s))
  {
    if s != [] {
      assert Lower(s)[0] == LowerChar(s[0]);
      assert Lower(s)[1..] == Lower(s[1..]);
      LowerStripLeft(s[1..]);
    }
  }

  lemma {:induction false} LowerStripRight(s: string)
    ensures StripRight(Lower(s)) == Lower(StripRight(s))
  {
    if s != [] {
      assert Lower(s)[..|s| - 1] == Lower(s[..|s| - 1]);
      LowerStripRight(s[..|s| - 1]);
    }
  }
}
