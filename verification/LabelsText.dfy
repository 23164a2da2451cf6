/** Label sets written as text, and read back. */
module LabelsText {
  import opened Common
  import opened Sorting
  import opened Strings

  type Labels = map<string, string>

  // ---------------------------------------------------------------------------
  // Quoted values
  // ---------------------------------------------------------------------------

  function QuoteChar(c: char): string {
    if c == '\\' then "\\\\" else if c == '"' then "\\\"" else if c == '\n' then "\\n" else [c]
  }

  function Quote(value: string): string {
    if value == "" then "" else QuoteChar(value[0]) + Quote(value[1..])
  }

  /** A quoted value at the start of the text, after its opening quote: the value and what
      follows its closing quote. */
  function Unquote(text: string): (r: Option<(string, string)>)
    ensures r.Some? ==> |r.value.1| < |text|
  {
    if text == "" then None
    else if text[0] == '"' then Some(("", text[1..]))
    else if text[0] == '\\' then
      if |text| < 2 || !(text[1] == '"' || text[1] == '\\' || text[1] == 'n') then None
      else Prepend([if text[1] == 'n' then '\n' else text[1]], Unquote(text[2..]))
    else Prepend([text[0]], Unquote(text[1..]))
  }

  function Prepend(front: string, r: Option<(string, string)>): Option<(string, string)> {
    match r
    case None => None
    case Some((value, rest)) => Some((front + value, rest))
  }

  lemma PrependTwice(a: string, b: string, r: Option<(string, string)>)
    ensures Prepend(a, Prepend(b, r)) == Prepend(a + b, r)
    ensures Prepend("", r) == r
  {
    match r
    case None =>
    case Some((value, rest)) => assert a + (b + value) == a + b + value && "" + value == value;
  }

  /** Reading back a quoted value gives the value, wherever it ends. */
  lemma {:induction false} UnquoteQuoted(value: string, rest: string)
    ensures Unquote(Quote(value) + "\"" + rest) == Some((value, rest))
  {
    if value == "" {
      assert Quote(value) + "\"" + rest == ['"'] + rest;
    } else {
      var q := QuoteChar(value[0]);
      var tail := Quote(value[1..]) + "\"" + rest;
      UnquoteQuoted(value[1..], rest);
      assert Quote(value) + "\"" + rest == q + tail;
      assert (q + tail)[|q|..] == tail;
      assert [value[0]] + value[1..] == value;
    }
  }

  /** A quoted value has no line feed, and is the value itself if that has nothing to escape. */
  lemma {:induction false} QuotedForm(value: string)
    ensures '\n' !in Quote(value)
    ensures '\\' !in value && '"' !in value && '\n' !in value ==> Quote(value) == value
  {
    if value != "" {
      QuotedForm(value[1..]);
      assert value == [value[0]] + value[1..];
    }
  }

  /** The fast path up to the first quote or backslash, then the slow one. */
  method ConsumeQuotedValue(text: string) returns (r: Option<(string, string)>)
    ensures r == Unquote(text)
  {
    PrependTwice("", "", Unquote(text));
    assert text[..0] == "" && text[0..] == text;
    for i := 0 to |text|
      invariant Unquote(text) == Prepend(text[..i], Unquote(text[i..]))
    {
      if text[i] == '"' {
        assert text[..i] + "" == text[..i];
        return Some((text[..i], text[i + 1..]));
      }
      if text[i] == '\\' {
        r := ConsumeQuotedValueEscaped(text, i);
        return;
      }
      PrependTwice(text[..i], [text[i]], Unquote(text[i + 1..]));
      TakeSnoc(text, i);
    }
    return None;
  }

  method ConsumeQuotedValueEscaped(text: string, escapeAt: nat) returns (r: Option<(string, string)>)
    requires escapeAt <= |text|
    ensures r == Prepend(text[..escapeAt], Unquote(text[escapeAt..]))
  {
    var b := text[..escapeAt];
    var i := escapeAt;
    while i < |text|
      invariant escapeAt <= i <= |text|
      invariant Prepend(b, Unquote(text[i..])) == Prepend(text[..escapeAt], Unquote(text[escapeAt..]))
    {
      if text[i] == '"' {
        assert b + "" == b;
        return Some((b, text[i + 1..]));
      }
      if text[i] == '\\' {
        i := i + 1;
        if i >= |text| {
          return None;
        }
        if text[i] == '"' || text[i] == '\\' {
          PrependTwice(b, [text[i]], Unquote(text[i + 1..]));
          b := b + [text[i]];
        } else if text[i] == 'n' {
          PrependTwice(b, ['\n'], Unquote(text[i + 1..]));
          b := b + ['\n'];
        } else {
          return None;
        }
      } else {
        PrependTwice(b, [text[i]], Unquote(text[i + 1..]));
        b := b + [text[i]];
      }
      i := i + 1;
    }
    return None;
  }

  // ---------------------------------------------------------------------------
  // Label sets
  // ---------------------------------------------------------------------------

  function LabelText(name: string, value: string): string {
    name + "=\"" + Quote(value) + "\""
  }

  function ValueOf(labels: Labels, name: string): string {
    if name in labels then labels[name] else ""
  }

  function LabelTexts(labels: Labels, names: seq<string>): (texts: seq<string>)
    ensures |texts| == |names| && forall i | 0 <= i < |names| :: texts[i] == LabelText(names[i], ValueOf(labels, names[i]))
  {
    if names == [] then []
    else LabelTexts(labels, names[..|names| - 1]) + [LabelText(names[|names| - 1], ValueOf(labels, names[|names| - 1]))]
  }

  /** The labels in the order of the names, separated by commas. */
  function Encode(labels: Labels, names: seq<string>): string {
    Join(LabelTexts(labels, names), ',')
  }

  /** Labels with an empty value are the same as no labels. */
  function NonEmpty(labels: Labels): Labels {
    map n | n in labels && labels[n] != "" :: labels[n]
  }

  /** The text of a label set: its non-empty labels in the order of their names. */
  ghost function TextOf(labels: Labels): string {
    Encode(labels, SortedOf(NonEmpty(labels).Keys))
  }

  /** The names the loop does not skip. */
  ghost function Kept(labels: Labels, names: seq<string>): seq<string> {
    if names == [] then []
    else
      var front, name := Kept(labels, names[..|names| - 1]), names[|names| - 1];
      if ValueOf(labels, name) == "" then front else front + [name]
  }

  /** What the loop has written after some names. */
  ghost function Written(labels: Labels, names: seq<string>): string {
    if names == [] then ""
    else
      var front, name := Written(labels, names[..|names| - 1]), names[|names| - 1];
      if ValueOf(labels, name) == "" then front
      else (if front == "" then "" else front + ",") + LabelText(name, ValueOf(labels, name))
  }

  lemma {:induction false} WrittenIsKept(labels: Labels, names: seq<string>)
    ensures Written(labels, names) == Encode(labels, Kept(labels, names))
    ensures Written(labels, names) == "" <==> Kept(labels, names) == []
  {
    if names != [] {
      var front, name := names[..|names| - 1], names[|names| - 1];
      WrittenIsKept(labels, front);
      if ValueOf(labels, name) != "" {
        var kept := Kept(labels, front);
        assert LabelTexts(labels, kept + [name]) == LabelTexts(labels, kept) + [LabelText(name, ValueOf(labels, name))];
        JoinSnoc(LabelTexts(labels, kept), LabelText(name, ValueOf(labels, name)), ',');
      }
    }
  }

  lemma {:induction false} KeptIff(labels: Labels, names: seq<string>, x: string)
    ensures x in Kept(labels, names) <==> x in names && ValueOf(labels, x) != ""
  {
    if names != [] {
      assert names == names[..|names| - 1] + [names[|names| - 1]];
      KeptIff(labels, names[..|names| - 1], x);
    }
  }

  lemma {:induction false} KeptAscends(labels: Labels, names: seq<string>)
    requires Ascending(names)
    ensures Ascending(Kept(labels, names))
  {
    if names != [] {
      var front, name := names[..|names| - 1], names[|names| - 1];
      KeptAscends(labels, front);
      var kept := Kept(labels, front);
      forall i | 0 <= i < |kept|
        ensures Before(kept[i], name)
      {
        KeptIff(labels, front, kept[i]);
      }
      AscendingSnoc(kept, name);
    }
  }

  lemma WrittenIsText(labels: Labels, names: seq<string>)
    requires Sorts(names, labels.Keys)
    ensures Written(labels, names) == TextOf(labels)
  {
    WrittenIsKept(labels, names);
    KeptAscends(labels, names);
    forall x
      ensures x in Kept(labels, names) <==> x in NonEmpty(labels).Keys
    {
      KeptIff(labels, names, x);
    }
    SortedOnce(Kept(labels, names), SortedOf(NonEmpty(labels).Keys), NonEmpty(labels).Keys);
  }

  method LabelsToText(labels: Labels) returns (text: string)
    ensures text == TextOf(labels)
  {
    var names := SortStrings(labels.Keys);
    text := "";
    var hadLabels := false;
    for i := 0 to |names|
      invariant text == Written(labels, names[..i])
      invariant hadLabels <==> text != ""
    {
      TakeSnoc(names, i);
      assert names[i] in names;
      var value := labels[names[i]];
      if value == "" {
        continue;
      }
      if hadLabels {
        text := text + ",";
      }
      hadLabels := true;
      text := text + LabelText(names[i], value);
    }
    assert names[..|names|] == names;
    WrittenIsText(labels, names);
  }

  // ---------------------------------------------------------------------------
  // Reading back
  // ---------------------------------------------------------------------------

  function IndexOf(text: string, c: char): (i: int)
    ensures -1 <= i < |text|
    ensures i >= 0 ==> text[i] == c && c !in text[..i]
    ensures i == -1 ==> c !in text
  {
    if text == "" then -1
    else if text[0] == c then 0
    else
      var i := IndexOf(text[1..], c);
      assert text == [text[0]] + text[1..];
      assert i >= 0 ==> text[..i + 1] == [text[0]] + text[1..][..i];
      if i == -1 then -1 else i + 1
  }

  function Decode(text: string, result: Labels): Option<Labels>
    decreases |text|
  {
    if text == "" then Some(result)
    else
      var eq := IndexOf(text, '=');
      if eq <= 0 || eq + 1 >= |text| || text[eq + 1] != '"' then None
      else
        var value := Unquote(text[eq + 2..]);
        if value.None? then None
        else
          var rest := value.value.1;
          if rest != "" && rest[0] != ',' then None
          else Decode(if rest == "" then "" else rest[1..], result[text[..eq] := value.value.0])
  }

  /** None stands for the nil map that reports an error. */
  method TextToLabels(text: string) returns (r: Option<Labels>)
    ensures r == Decode(text, map[])
  {
    if text == "" {
      return Some(map[]);
    }
    var result: Labels := map[];
    var remaining := text;
    while |remaining| > 0
      invariant Decode(remaining, result) == Decode(text, map[])
    {
      var eq := IndexOf(remaining, '=');
      if eq <= 0 || eq + 1 >= |remaining| || remaining[eq + 1] != '"' {
        return None;
      }
      var value := ConsumeQuotedValue(remaining[eq + 2..]);
      if value.None? {
        return None;
      }
      result := result[remaining[..eq] := value.value.0];
      remaining := value.value.1;
      if |remaining| > 0 {
        if remaining[0] != ',' {
          return None;
        }
        remaining := remaining[1..];
      }
    }
    return Some(result);
  }

  predicate ValidName(name: string) {
    name != "" && '=' !in name
  }

  /** Only valid names are ever read. */
  lemma {:induction false} DecodedNames(text: string, result: Labels, n: string)
    requires Decode(text, result).Some? && n in Decode(text, result).value
    ensures n in result || ValidName(n)
    decreases |text|
  {
    if text != "" {
      var eq := IndexOf(text, '=');
      var value := Unquote(text[eq + 2..]).value;
      DecodedNames(if value.1 == "" then "" else value.1[1..], result[text[..eq] := value.0], n);
    }
  }

  lemma {:induction false} FirstEquals(name: string, rest: string)
    requires '=' !in name
    ensures IndexOf(name + "=" + rest, '=') == |name|
  {
    if name == "" {
      assert name + "=" + rest == ['='] + rest;
    } else {
      assert (name + "=" + rest)[1..] == name[1..] + "=" + rest;
      FirstEquals(name[1..], rest);
    }
  }

  /** A label, then the end of the text or a comma and more labels. */
  lemma DecodeLabel(name: string, value: string, rest: string, result: Labels)
    requires ValidName(name) && (rest == "" || rest[0] == ',')
    ensures Decode(LabelText(name, value) + rest, result) ==
            Decode(if rest == "" then "" else rest[1..], result[name := value])
  {
    var text := LabelText(name, value) + rest;
    var quoted := Quote(value) + "\"" + rest;
    LabelParts(name, Quote(value), rest);
    FirstEquals(name, "\"" + quoted);
    UnquoteQuoted(value, rest);
  }

  lemma LabelParts(name: string, quoted: string, rest: string)
    ensures var text := name + "=\"" + quoted + "\"" + rest;
            && text == name + "=" + ("\"" + (quoted + "\"" + rest))
            && text[..|name|] == name && text[|name| + 1] == '"' && text[|name| + 2..] == quoted + "\"" + rest
  {
  }

  lemma EncodeFront(labels: Labels, names: seq<string>)
    requires names != []
    ensures Encode(labels, names) ==
            LabelText(names[0], ValueOf(labels, names[0])) + if |names| == 1 then "" else "," + Encode(labels, names[1..])
  {
    var texts := LabelTexts(labels, names);
    assert texts[1..] == LabelTexts(labels, names[1..]);
    assert |names| > 1 ==> texts[0] + "," + Join(texts[1..], ',') == texts[0] + ("," + Join(texts[1..], ','));
    assert texts[0] + "" == texts[0];
  }

  function Part(labels: Labels, names: seq<string>): Labels {
    map n | n in names :: ValueOf(labels, n)
  }

  lemma PartFront(labels: Labels, names: seq<string>, result: Labels)
    requires names != []
    ensures result[names[0] := ValueOf(labels, names[0])] + Part(labels, names[1..]) == result + Part(labels, names)
  {
    assert names == [names[0]] + names[1..];
  }

  lemma {:induction false} DecodeEncoded(labels: Labels, names: seq<string>, result: Labels)
    requires forall i | 0 <= i < |names| :: ValidName(names[i])
    ensures Decode(Encode(labels, names), result) == Some(result + Part(labels, names))
  {
    if names == [] {
      assert result + Part(labels, names) == result;
    } else {
      var name, value, tail := names[0], ValueOf(labels, names[0]), names[1..];
      var rest := if tail == [] then "" else "," + Encode(labels, tail);
      EncodeFront(labels, names);
      DecodeLabel(name, value, rest, result);
      assert (if rest == "" then "" else rest[1..]) == Encode(labels, tail);
      DecodeEncoded(labels, tail, result[name := value]);
      PartFront(labels, names, result);
    }
  }

  ghost predicate AllValid(labels: Labels) {
    forall n | n in labels :: ValidName(n)
  }

  /** Reading back the text of a label set gives its non-empty labels exactly when all their names
      are valid. */
  lemma RoundTripIff(labels: Labels)
    ensures Decode(TextOf(labels), map[]) == Some(NonEmpty(labels)) <==> AllValid(NonEmpty(labels))
  {
    var some := NonEmpty(labels);
    var names := SortedOf(some.Keys);
    if AllValid(some) {
      DecodeEncoded(labels, names, map[]);
      assert map[] + Part(labels, names) == some;
    }
    if Decode(TextOf(labels), map[]) == Some(some) {
      forall n | n in some
        ensures ValidName(n)
      {
        DecodedNames(TextOf(labels), map[], n);
      }
    }
  }

  /** With valid names no two label sets share a text. */
  lemma OneToOne(a: Labels, b: Labels)
    requires AllValid(NonEmpty(a)) && AllValid(NonEmpty(b))
    ensures TextOf(a) == TextOf(b) <==> NonEmpty(a) == NonEmpty(b)
  {
    RoundTripIff(a);
    RoundTripIff(b);
    if NonEmpty(a) == NonEmpty(b) {
      var names := SortedOf(NonEmpty(a).Keys);
      forall i | 0 <= i < |names|
        ensures ValueOf(a, names[i]) == NonEmpty(a)[names[i]] == ValueOf(b, names[i])
      {
      }
      assert LabelTexts(a, names) == LabelTexts(b, names);
    }
  }

  lemma OneLabel(n: string, v: string)
    requires v != ""
    ensures TextOf(map[n := v]) == LabelText(n, v)
  {
    var labels, names := map[n := v], [n];
    assert NonEmpty(labels) == labels;
    SortedOnce(names, SortedOf(labels.Keys), labels.Keys);
    assert LabelTexts(labels, names) == [LabelText(n, v)];
  }

  lemma TwoLabels(n: string, v: string, n': string, v': string)
    requires v != "" && v' != "" && Before(n, n')
    ensures TextOf(map[n := v, n' := v']) == LabelText(n, v) + "," + LabelText(n', v')
  {
    var labels, names := map[n := v, n' := v'], [n, n'];
    NotBoth(n, n);
    assert NonEmpty(labels) == labels;
    SortedOnce(names, SortedOf(labels.Keys), labels.Keys);
    var texts := LabelTexts(labels, names);
    assert texts == [LabelText(n, v), LabelText(n', v')] && texts[1..] == [LabelText(n', v')];
    assert Join(texts[1..], ',') == texts[1] && Join(texts, ',') == texts[0] + "," + texts[1];
  }

  /** A name with an equals sign can make two label sets look the same. */
  lemma InvalidNamesCollide(n: string, v: string, n': string, v': string)
    requires v != "" && v' != "" && Before(n, n')
    ensures var name := LabelText(n, v) + "," + n'; TextOf(map[name := v']) == TextOf(map[n := v, n' := v'])
  {
    OneLabel(LabelText(n, v) + "," + n', v');
    TwoLabels(n, v, n', v');
    Regroup(LabelText(n, v), n', Quote(v'));
  }

  lemma Regroup(front: string, name: string, quoted: string)
    ensures (front + "," + name) + "=\"" + quoted + "\"" == front + "," + (name + "=\"" + quoted + "\"")
  {
  }

  /** The text lists the non-empty labels in the order of their names. */
  lemma TextIsSorted(labels: Labels, names: seq<string>)
    requires Ascending(names) && forall n :: n in names <==> n in labels && labels[n] != ""
    ensures TextOf(labels) == Join(LabelTexts(labels, names), ',')
  {
    SortedOnce(names, SortedOf(NonEmpty(labels).Keys), NonEmpty(labels).Keys);
  }

  // ---------------------------------------------------------------------------
  // Which texts can be read
  // ---------------------------------------------------------------------------

  /** The text between two quotes stands for the value: a backslash makes the next character stand for
      itself or, if it is an n, for a line feed, and a quote never stands alone. */
  ghost predicate Quotes(q: string, value: string) {
    if q == "" then value == ""
    else if value == "" then false
    else if q[0] == '\\' then
      && |q| > 1 && (q[1] == '"' || q[1] == '\\' || q[1] == 'n')
      && value[0] == (if q[1] == 'n' then '\n' else q[1]) && Quotes(q[2..], value[1..])
    else q[0] != '"' && value[0] == q[0] && Quotes(q[1..], value[1..])
  }

  lemma {:induction false} UnquoteReads(q: string, value: string, rest: string)
    requires Quotes(q, value)
    ensures Unquote(q + "\"" + rest) == Some((value, rest))
  {
    var text := q + "\"" + rest;
    if q == "" {
      assert text == ['"'] + rest;
    } else {
      var n := if q[0] == '\\' then 2 else 1;
      UnquoteReads(q[n..], value[1..], rest);
      assert text[n..] == q[n..] + "\"" + rest;
      assert value == [value[0]] + value[1..];
    }
  }

  lemma {:induction false} UnquoteReadsOnly(text: string) returns (q: string)
    requires Unquote(text).Some?
    ensures text == q + "\"" + Unquote(text).value.1 && Quotes(q, Unquote(text).value.0)
  {
    if text[0] == '"' {
      q := "";
      assert text == ['"'] + text[1..];
    } else {
      var n := if text[0] == '\\' then 2 else 1;
      var tail := UnquoteReadsOnly(text[n..]);
      q := text[..n] + tail;
      assert q[n..] == tail && text == text[..n] + text[n..];
      var value := Unquote(text).value.0;
      assert value[1..] == Unquote(text[n..]).value.0;
    }
  }

  /** A label as written: quoted is what stands between the quotes. */
  datatype Label = Label(name: string, quoted: string, value: string) {

    ghost predicate Valid() {
      ValidName(name) && Quotes(quoted, value)
    }

    function Text(): string {
      name + "=\"" + quoted + "\""
    }
  }

  function AfterComma(rest: string): string {
    if rest == "" then "" else rest[1..]
  }

  /** The text is these labels, separated by commas; one more comma may follow. */
  ghost predicate Lists(text: string, labels: seq<Label>)
    decreases |text|
  {
    if text == "" then labels == []
    else
      && labels != [] && labels[0].Valid() && labels[0].Text() <= text
      && var rest := text[|labels[0].Text()|..];
         (rest == "" || rest[0] == ',') && Lists(AfterComma(rest), labels[1..])
  }

  /** Of labels with the same name the last counts. */
  ghost function AsMap(labels: seq<Label>): Labels {
    if labels == [] then map[] else map[labels[0].name := labels[0].value] + AsMap(labels[1..])
  }

  lemma AsMapFront(result: Labels, labels: seq<Label>)
    requires labels != []
    ensures result[labels[0].name := labels[0].value] + AsMap(labels[1..]) == result + AsMap(labels)
  {
  }

  lemma FirstIsRead(first: Label, rest: string, result: Labels)
    requires first.Valid() && (rest == "" || rest[0] == ',')
    ensures Decode(first.Text() + rest, result) == Decode(AfterComma(rest), result[first.name := first.value])
  {
    LabelParts(first.name, first.quoted, rest);
    FirstEquals(first.name, "\"" + (first.quoted + "\"" + rest));
    UnquoteReads(first.quoted, first.value, rest);
  }

  lemma TakeFront(text: string, front: string)
    requires front <= text && front != ""
    ensures text == front + text[|front|..] && |AfterComma(text[|front|..])| < |text|
  {
  }

  lemma {:induction false} ListedIsRead(text: string, labels: seq<Label>, result: Labels)
    requires Lists(text, labels)
    ensures Decode(text, result) == Some(result + AsMap(labels))
    decreases |text|
  {
    if text == "" {
      assert result + AsMap(labels) == result;
    } else {
      var first, rest := labels[0], text[|labels[0].Text()|..];
      TakeFront(text, first.Text());
      FirstIsRead(first, rest, result);
      ListedIsRead(AfterComma(rest), labels[1..], result[first.name := first.value]);
      AsMapFront(result, labels);
    }
  }

  lemma TextParts(text: string, eq: nat, q: string, rest: string)
    requires eq + 1 < |text| && text[eq] == '=' && text[eq + 1] == '"' && text[eq + 2..] == q + "\"" + rest
    ensures text == text[..eq] + "=\"" + q + "\"" + rest
  {
    assert text == text[..eq] + "=\"" + text[eq + 2..];
  }

  lemma ReadFirst(text: string, result: Labels) returns (first: Label, rest: string)
    requires text != "" && Decode(text, result).Some?
    ensures first.Valid() && text == first.Text() + rest && (rest == "" || rest[0] == ',')
  {
    var eq := IndexOf(text, '=');
    var unquoted := Unquote(text[eq + 2..]).value;
    var q := UnquoteReadsOnly(text[eq + 2..]);
    rest := unquoted.1;
    first := Label(text[..eq], q, unquoted.0);
    TextParts(text, eq, q, rest);
  }

  lemma {:induction false} ReadIsListed(text: string, result: Labels) returns (labels: seq<Label>)
    requires Decode(text, result).Some?
    ensures Lists(text, labels)
    decreases |text|
  {
    labels := [];
    if text != "" {
      var first, rest := ReadFirst(text, result);
      FirstIsRead(first, rest, result);
      var tail := ReadIsListed(AfterComma(rest), result[first.name := first.value]);
      labels := [first] + tail;
      assert labels[1..] == tail && text[|first.Text()|..] == rest;
    }
  }

  /** A text is read exactly when it is a list of labels with valid names, and then gives these labels. */
  lemma ReadIff(text: string, r: Labels)
    ensures Decode(text, map[]) == Some(r) <==> exists labels :: Lists(text, labels) && r == AsMap(labels)
  {
    if Decode(text, map[]).Some? {
      var labels := ReadIsListed(text, map[]);
      ReadGives(text, labels);
    }
    if labels :| Lists(text, labels) && r == AsMap(labels) {
      ReadGives(text, labels);
    }
  }

  lemma ReadGives(text: string, labels: seq<Label>)
    requires Lists(text, labels)
    ensures Decode(text, map[]) == Some(AsMap(labels))
  {
    ListedIsRead(text, labels, map[]);
    assert map[] + AsMap(labels) == AsMap(labels);
  }
}
