/** Values of facts without surrounding blanks and of limited length. Characters stand for the bytes
    of the text. */
module FactsCleaning {
  import opened Common

  // ---------------------------------------------------------------------------
  // Blanks
  // ---------------------------------------------------------------------------

  /** The blanks that are one byte long. */
  predicate IsBlank1(c: char) {
    c == ' ' || ('\U{09}' <= c <= '\U{0D}')
  }

  /** U+0085 and U+00A0 in UTF-8. */
  predicate IsBlank2(c: char, d: char) {
    c == '\U{C2}' && (d == '\U{85}' || d == '\U{A0}')
  }

  /** U+1680, U+2000 to U+200A, U+2028, U+2029, U+202F, U+205F and U+3000 in UTF-8. */
  predicate IsBlank3(c: char, d: char, e: char) {
    || (c == '\U{E1}' && d == '\U{9A}' && e == '\U{80}')
    || (c == '\U{E2}' && d == '\U{80}'
        && ('\U{80}' <= e <= '\U{8A}' || e == '\U{A8}' || e == '\U{A9}' || e == '\U{AF}'))
    || (c == '\U{E2}' && d == '\U{81}' && e == '\U{9F}')
    || (c == '\U{E3}' && d == '\U{80}' && e == '\U{80}')
  }

  /** The length of the blank at the start, 0 if there is none. */
  function LeadingBlank(v: string): (n: nat)
    ensures n <= |v|
  {
    if |v| >= 1 && IsBlank1(v[0]) then 1
    else if |v| >= 2 && IsBlank2(v[0], v[1]) then 2
    else if |v| >= 3 && IsBlank3(v[0], v[1], v[2]) then 3
    else 0
  }

  /** The length of the blank at the end. */
  function TrailingBlank(v: string): (n: nat)
    ensures n <= |v|
  {
    var n := |v|;
    if n >= 1 && IsBlank1(v[n - 1]) then 1
    else if n >= 2 && IsBlank2(v[n - 2], v[n - 1]) then 2
    else if n >= 3 && IsBlank3(v[n - 3], v[n - 2], v[n - 1]) then 3
    else 0
  }

  function TrimLeft(v: string): string
    decreases |v|
  {
    if LeadingBlank(v) > 0 then TrimLeft(v[LeadingBlank(v)..]) else v
  }

  function TrimRight(v: string): string
    decreases |v|
  {
    if TrailingBlank(v) > 0 then TrimRight(v[..|v| - TrailingBlank(v)]) else v
  }

  /** A character that is no part of any blank. */
  predicate Plain(c: char) {
    c < '\U{80}' && !IsBlank1(c)
  }

  lemma PlainIsNoBlank(v: string)
    ensures v != "" && Plain(v[0]) ==> LeadingBlank(v) == 0
    ensures v != "" && Plain(v[|v| - 1]) ==> TrailingBlank(v) == 0
  {
  }

  /** A blank value is dropped and a long one cut. */
  function CleanValue(v: string): Option<string> {
    var trimmed := TrimRight(TrimLeft(v));
    if trimmed == "" then None
    else Some(if |trimmed| >= 100 then trimmed[..97] + "..." else trimmed)
  }

  ghost predicate Cleaned(cleaned: map<string, string>, facts: map<string, string>) {
    && (forall k :: k in cleaned <==> k in facts && CleanValue(facts[k]).Some?)
    && (forall k | k in cleaned :: Some(cleaned[k]) == CleanValue(facts[k]))
  }

  method CleanFacts(facts: map<string, string>) returns (cleaned: map<string, string>)
    ensures Cleaned(cleaned, facts)
  {
    cleaned := facts;
    var todo := facts.Keys;
    while todo != {}
      invariant todo <= facts.Keys
      invariant forall k :: k in cleaned <==> k in facts && (k in todo || CleanValue(facts[k]).Some?)
      invariant forall k | k in cleaned && k in todo :: cleaned[k] == facts[k]
      invariant forall k | k in cleaned && k !in todo :: Some(cleaned[k]) == CleanValue(facts[k])
    {
      var k :| k in todo;
      todo := todo - {k};
      var v := TrimRight(TrimLeft(facts[k]));
      if v == "" {
        cleaned := cleaned - {k};
        continue;
      }
      if |v| >= 100 {
        v := v[..97] + "...";
      }
      cleaned := cleaned[k := v];
    }
  }

  // ---------------------------------------------------------------------------
  // Cleaning what is clean
  // ---------------------------------------------------------------------------

  lemma CleanKeeps(v: string)
    requires 0 < |v| < 100 && LeadingBlank(v) == TrailingBlank(v) == 0
    ensures CleanValue(v) == Some(v)
  {
  }

  lemma {:induction false} TrimmedLeft(v: string)
    ensures LeadingBlank(TrimLeft(v)) == 0
    decreases |v|
  {
    if LeadingBlank(v) > 0 {
      TrimmedLeft(v[LeadingBlank(v)..]);
    }
  }

  lemma {:induction false} TrimmedRight(v: string)
    ensures TrimRight(v) <= v && TrailingBlank(TrimRight(v)) == 0
    decreases |v|
  {
    if TrailingBlank(v) > 0 {
      TrimmedRight(v[..|v| - TrailingBlank(v)]);
    }
  }

  /** What follows the first three bytes does not make a blank at the start. */
  lemma NoBlankInPrefix(front: string, v: string)
    requires front <= v && LeadingBlank(v) == 0
    ensures LeadingBlank(front) == 0
  {
  }

  lemma NoBlankAfterCut(v: string)
    requires |v| >= 100 && LeadingBlank(v) == 0
    ensures var cut := v[..97] + "..."; LeadingBlank(cut) == TrailingBlank(cut) == 0
  {
    var cut := v[..97] + "...";
    assert cut[0] == v[0] && cut[1] == v[1] && cut[2] == v[2] && cut[99] == '.';
    PlainIsNoBlank(cut);
  }

  /** Cleaning twice is cleaning once. */
  lemma CleanAgain(v: string)
    requires CleanValue(v).Some?
    ensures CleanValue(CleanValue(v).value) == CleanValue(v)
  {
    var left := TrimLeft(v);
    var trimmed := TrimRight(left);
    TrimmedLeft(v);
    TrimmedRight(left);
    NoBlankInPrefix(trimmed, left);
    if |trimmed| < 100 {
      CleanKeeps(trimmed);
    } else {
      var cut := trimmed[..97] + "...";
      NoBlankAfterCut(trimmed);
      assert TrimLeft(cut) == cut && TrimRight(cut) == cut;
      assert cut[..97] == trimmed[..97];
    }
  }

  // ---------------------------------------------------------------------------
  // What cleaning does
  // ---------------------------------------------------------------------------

  /** The code points that are white space. */
  predicate IsSpace(u: nat) {
    || 0x9 <= u <= 0xd || u == 0x20 || u == 0x85 || u == 0xa0 || u == 0x1680
    || 0x2000 <= u <= 0x200a || u == 0x2028 || u == 0x2029 || u == 0x202f || u == 0x205f || u == 0x3000
  }

  /** Such a code point in UTF-8. */
  function Utf8(u: nat): string
    requires u < 0xd800
  {
    if u < 0x80 then [u as char]
    else if u < 0x800 then [(0xc0 + u / 64) as char, (0x80 + u % 64) as char]
    else [(0xe0 + u / 4096) as char, (0x80 + u / 64 % 64) as char, (0x80 + u % 64) as char]
  }

  /** The text is one blank. */
  predicate IsBlank(b: string) {
    b != "" && LeadingBlank(b) == |b|
  }

  /** The blanks are exactly the white space code points. */
  lemma BlankIffSpace(b: string)
    ensures IsBlank(b) <==> exists u: nat | u < 0xd800 && IsSpace(u) :: Utf8(u) == b
  {
    if IsBlank(b) {
      var u := CodePoint(b);
    }
    if u: nat :| u < 0xd800 && IsSpace(u) && Utf8(u) == b {
      SpaceIsBlank(u);
    }
  }

  lemma SpaceIsBlank(u: nat)
    requires IsSpace(u)
    ensures IsBlank(Utf8(u))
  {
  }

  lemma CodePoint(b: string) returns (u: nat)
    requires IsBlank(b)
    ensures IsSpace(u) && u < 0xd800 && Utf8(u) == b
  {
    if |b| == 1 {
      u := b[0] as int;
    } else if |b| == 2 {
      u := b[1] as int;
    } else {
      u := 4096 * (b[0] as int - 0xe0) + 64 * (b[1] as int - 0x80) + (b[2] as int - 0x80);
    }
    assert Utf8(u) == b;
  }

  /** A blank is found at either end. */
  lemma BlankAtStart(b: string, rest: string)
    requires IsBlank(b)
    ensures LeadingBlank(b + rest) == |b|
  {
  }

  lemma BlankAtEnd(front: string, b: string)
    requires IsBlank(b)
    ensures TrailingBlank(front + b) == |b|
  {
    var v, n := front + b, |front + b|;
    assert v[n - 1] == b[|b| - 1];
    assert |b| >= 2 ==> v[n - 2] == b[|b| - 2];
    assert |b| >= 3 ==> v[n - 3] == b[|b| - 3];
  }

  /** Blanks and nothing else. */
  predicate OnlyBlanks(v: string)
    decreases |v|
  {
    v == "" || (LeadingBlank(v) > 0 && OnlyBlanks(v[LeadingBlank(v)..]))
  }

  lemma BlankFirst(v: string, rest: string)
    requires LeadingBlank(v) > 0
    ensures var n := LeadingBlank(v);
            IsBlank(v[..n]) && LeadingBlank(v[..n] + rest) == n && (v[..n] + rest)[n..] == rest
  {
  }

  lemma {:induction false} BlanksLeft(v: string) returns (front: string)
    ensures OnlyBlanks(front) && v == front + TrimLeft(v)
    decreases |v|
  {
    front := "";
    var n := LeadingBlank(v);
    if n > 0 {
      var rest := BlanksLeft(v[n..]);
      front := v[..n] + rest;
      BlankFirst(v, rest);
    }
  }

  lemma {:induction false} BlanksSnoc(v: string, b: string)
    requires OnlyBlanks(v) && IsBlank(b)
    ensures OnlyBlanks(v + b)
    decreases |v|
  {
    if v == "" {
      assert v + b == b && b[|b|..] == "";
    } else {
      var n := LeadingBlank(v);
      BlanksSnoc(v[n..], b);
      assert v + b == v[..n] + (v[n..] + b);
      BlankFirst(v, v[n..] + b);
    }
  }

  lemma BlankLast(v: string)
    requires TrailingBlank(v) > 0
    ensures IsBlank(v[|v| - TrailingBlank(v)..])
  {
  }

  lemma Regroup(a: string, b: string, c: string, v: string)
    requires v == a + b + c
    ensures v == a + (b + c)
  {
  }

  lemma {:induction false} BlanksRight(v: string) returns (back: string)
    ensures OnlyBlanks(back) && v == TrimRight(v) + back
    decreases |v|
  {
    if TrailingBlank(v) == 0 {
      return "";
    }
    var body, blank := v[..|v| - TrailingBlank(v)], v[|v| - TrailingBlank(v)..];
    assert IsBlank(blank) by {
      BlankLast(v);
    }
    assert v == body + blank && TrimRight(v) == TrimRight(body);
    var rest := BlanksRight(body);
    back := rest + blank;
    assert OnlyBlanks(back) by {
      BlanksSnoc(rest, blank);
    }
    Regroup(TrimRight(body), rest, blank, v);
  }

  lemma {:induction false} NothingLeft(v: string)
    ensures TrimLeft(v) == "" <==> OnlyBlanks(v)
    decreases |v|
  {
    if LeadingBlank(v) > 0 {
      NothingLeft(v[LeadingBlank(v)..]);
    }
  }

  /** A value is its cleaned form between blanks, unless that is long: then its first 97 bytes are kept
      and three dots say so. */
  lemma CleanedForm(v: string) returns (front: string, text: string, back: string)
    ensures v == front + text + back && OnlyBlanks(front) && OnlyBlanks(back)
    ensures LeadingBlank(text) == TrailingBlank(text) == 0
    ensures CleanValue(v) == if text == "" then None else if |text| < 100 then Some(text) else Some(text[..97] + "...")
  {
    text := TrimRight(TrimLeft(v));
    front := BlanksLeft(v);
    back := BlanksRight(TrimLeft(v));
    Regroup(front, text, back, front + text + back);
    NothingToTrim(v);
  }

  lemma NothingToTrim(v: string)
    ensures var text := TrimRight(TrimLeft(v)); LeadingBlank(text) == TrailingBlank(text) == 0
  {
    TrimmedLeft(v);
    TrimmedRight(TrimLeft(v));
    NoBlankInPrefix(TrimRight(TrimLeft(v)), TrimLeft(v));
  }

  /** Only a value that is all blank is dropped. */
  lemma DroppedIffBlank(v: string)
    ensures CleanValue(v).None? <==> OnlyBlanks(v)
  {
    var left := TrimLeft(v);
    NothingLeft(v);
    TrimmedLeft(v);
    var back := BlanksRight(left);
    NothingLeft(back);
    assert TrimRight(left) == "" ==> left == back;
  }
}
