/** Splitting at a separator and joining with one. */
module Strings {

  function Split(s: string, sep: char): (parts: seq<string>)
    ensures parts != []
  {
    if s == "" then [""]
    else
      var rest := Split(s[1..], sep);
      if s[0] == sep then [""] + rest else [[s[0]] + rest[0]] + rest[1..]
  }

  function Join(parts: seq<string>, sep: char): string {
    if parts == [] then ""
    else if |parts| == 1 then parts[0]
    else parts[0] + [sep] + Join(parts[1..], sep)
  }

  lemma {:induction false} JoinSplit(s: string, sep: char)
    ensures Join(Split(s, sep), sep) == s
  {
    if s != "" {
      JoinSplit(s[1..], sep);
      var rest := Split(s[1..], sep);
      if s[0] == sep {
        assert Split(s, sep)[1..] == rest;
      } else if |rest| > 1 {
        assert Split(s, sep)[1..] == rest[1..];
      }
    }
  }

  lemma {:induction false} SplitPart(part: string, rest: string, sep: char)
    requires sep !in part
    ensures Split(part + [sep] + rest, sep) == [part] + Split(rest, sep)
    ensures Split(part, sep) == [part]
  {
    if part == "" {
      assert part + [sep] + rest == [sep] + rest;
    } else {
      SplitPart(part[1..], rest, sep);
      assert (part + [sep] + rest)[1..] == part[1..] + [sep] + rest;
      assert part == [part[0]] + part[1..];
    }
  }

  lemma {:induction false} SplitJoin(parts: seq<string>, sep: char)
    requires parts != [] && forall i | 0 <= i < |parts| :: sep !in parts[i]
    ensures Split(Join(parts, sep), sep) == parts
  {
    if |parts| == 1 {
      SplitPart(parts[0], "", sep);
    } else {
      SplitJoin(parts[1..], sep);
      SplitPart(parts[0], Join(parts[1..], sep), sep);
      assert parts == [parts[0]] + parts[1..];
    }
  }

  lemma {:induction false} JoinSnoc(parts: seq<string>, part: string, sep: char)
    ensures Join(parts + [part], sep) == if parts == [] then part else Join(parts, sep) + [sep] + part
  {
    if parts == [] {
      assert parts + [part] == [part];
    } else if |parts| == 1 {
      assert (parts + [part])[1..] == [part];
    } else {
      JoinSnoc(parts[1..], part, sep);
      assert (parts + [part])[1..] == parts[1..] + [part];
      assert parts[0] + [sep] + (Join(parts[1..], sep) + [sep] + part) ==
             (parts[0] + [sep] + Join(parts[1..], sep)) + [sep] + part;
    }
  }

  lemma {:induction false} SplitAppend(a: string, b: string, sep: char)
    ensures Split(a + [sep] + b, sep) == Split(a, sep) + Split(b, sep)
  {
    if a == "" {
      assert a + [sep] + b == [sep] + b;
    } else {
      SplitAppend(a[1..], b, sep);
      assert (a + [sep] + b)[1..] == a[1..] + [sep] + b;
      SplitStep(a[0], Split(a[1..], sep), Split(b, sep), sep);
    }
  }

  lemma SplitStep(c: char, xs: seq<string>, ys: seq<string>, sep: char)
    requires xs != []
    ensures [""] + (xs + ys) == ([""] + xs) + ys
    ensures [[c] + (xs + ys)[0]] + (xs + ys)[1..] == ([[c] + xs[0]] + xs[1..]) + ys
  {
  }

  lemma {:induction false} JoinAppend(a: seq<string>, b: seq<string>, sep: char)
    requires a != [] && b != []
    ensures Join(a + b, sep) == Join(a, sep) + [sep] + Join(b, sep)
  {
    if |a| == 1 {
      assert (a + b)[1..] == b;
    } else {
      JoinAppend(a[1..], b, sep);
      assert (a + b)[1..] == a[1..] + b;
      assert a[0] + [sep] + (Join(a[1..], sep) + [sep] + Join(b, sep)) == Join(a, sep) + [sep] + Join(b, sep);
    }
  }

  /** A text is another one, or starts with it and a separator, exactly when its parts start with the
      parts of that one. */
  lemma PartsStartIff(s: string, t: string, sep: char)
    ensures s == t || t + [sep] <= s <==> Split(t, sep) <= Split(s, sep)
  {
    if t + [sep] <= s {
      var rest := s[|t| + 1..];
      assert s == t + [sep] + rest;
      SplitAppend(t, rest, sep);
    }
    if Split(t, sep) <= Split(s, sep) {
      var rest := Split(s, sep)[|Split(t, sep)|..];
      assert Split(s, sep) == Split(t, sep) + rest;
      JoinSplit(s, sep);
      JoinSplit(t, sep);
      if rest == [] {
        assert Split(s, sep) == Split(t, sep);
      } else {
        JoinAppend(Split(t, sep), rest, sep);
      }
    }
  }
}
