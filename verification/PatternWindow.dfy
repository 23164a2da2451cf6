/** Searching a byte stream for a pattern through a bounded work buffer. */
module PatternWindow {
  import opened Common

  newtype Byte = b: int | 0 <= b < 256

  const READ_SIZE: nat := 4096
  const CAPACITY: nat := 8192
  const FIRST_BYTES: nat := 50

  predicate OccursAt(text: seq<Byte>, pattern: seq<Byte>, t: nat) {
    t + |pattern| <= |text| && text[t..t + |pattern|] == pattern
  }

  predicate Contains(text: seq<Byte>, pattern: seq<Byte>) {
    exists t | 0 <= t <= |text| :: OccursAt(text, pattern, t)
  }

  /** The work buffer after one read. On overflow the buffer is shifted by the size of the
      read and cut to leave room for it: bytes between the shifted content and that room are
      left over from before the shift. */
  function Feed(w: seq<Byte>, data: seq<Byte>): (r: seq<Byte>)
    requires |w| <= CAPACITY && |data| <= READ_SIZE
    ensures |r| <= CAPACITY
    ensures data != [] ==> r != []
  {
    var n := |data|;
    if |w| + n <= CAPACITY then w + data
    else w[n..] + w[|w| - n..CAPACITY - n] + data
  }

  ghost predicate Bounded(chunks: seq<seq<Byte>>) {
    forall i | 0 <= i < |chunks| :: |chunks[i]| <= READ_SIZE
  }

  ghost function Window(chunks: seq<seq<Byte>>): (w: seq<Byte>)
    requires Bounded(chunks)
    ensures |w| <= CAPACITY
  {
    if chunks == [] then [] else Feed(Window(chunks[..|chunks| - 1]), chunks[|chunks| - 1])
  }

  ghost function Stream(chunks: seq<seq<Byte>>): seq<Byte> {
    if chunks == [] then [] else Stream(chunks[..|chunks| - 1]) + chunks[|chunks| - 1]
  }

  /** The pattern was in the window after one of the (non-empty) reads. */
  ghost predicate Found(chunks: seq<seq<Byte>>, pattern: seq<Byte>)
    requires Bounded(chunks)
  {
    chunks != [] &&
    (|| Found(chunks[..|chunks| - 1], pattern)
     || (chunks[|chunks| - 1] != [] && Contains(Window(chunks), pattern)))
  }

  // ---------------------------------------------------------------------------
  // The loop
  // ---------------------------------------------------------------------------

  datatype Status = Ok | EndOfFile | Error

  datatype Outcome = PatternFound | Closed | Failed | StillReading

  /** Moves the content to the front, byte by byte. */
  method ShiftLeft(buf: array<Byte>, len: nat, n: nat)
    requires n <= len <= buf.Length
    modifies buf
    ensures buf[..len - n] == old(buf[n..len])
    ensures buf[len - n..] == old(buf[len - n..])
  {
    for j := 0 to len - n
      invariant buf[..j] == old(buf[n..n + j])
      invariant forall i | j <= i < buf.Length :: buf[i] == old(buf[i])
    {
      buf[j] := buf[n + j];
    }
  }

  method AppendBytes(buf: array<Byte>, len: nat, data: seq<Byte>)
    requires len + |data| <= buf.Length
    modifies buf
    ensures buf[..len + |data|] == old(buf[..len]) + data
  {
    for j := 0 to |data|
      invariant buf[..len + j] == old(buf[..len]) + data[..j]
    {
      buf[len + j] := data[j];
    }
    assert data[..|data|] == data;
  }

  /** One non-empty read into the work buffer. */
  method FeedBuffer(buf: array<Byte>, len: nat, data: seq<Byte>) returns (len': nat)
    requires buf.Length == CAPACITY && len <= CAPACITY && |data| <= READ_SIZE
    modifies buf
    ensures len <= len' <= CAPACITY
    ensures buf[..len'] == Feed(old(buf[..len]), data)
  {
    var n := |data|;
    ghost var w := buf[..len];
    len' := len;
    if CAPACITY < len + n {
      assert w[n..] == buf[n..len] && w[len - n..CAPACITY - n] == buf[len - n..CAPACITY - n];
      len' := MakeRoom(buf, len, n);
      assert buf[..len'] + data == Feed(w, data);
    }
    AppendBytes(buf, len', data);
    len' := len' + n;
  }

  /** The shift and cut before an overflowing read. */
  method MakeRoom(buf: array<Byte>, len: nat, n: nat) returns (len': nat)
    requires buf.Length == CAPACITY && len <= CAPACITY && n <= READ_SIZE && CAPACITY < len + n
    modifies buf
    ensures len' == CAPACITY - n
    ensures buf[..len'] == old(buf[n..len]) + old(buf[len - n..CAPACITY - n])
  {
    ShiftLeft(buf, len, n);
    len' := CAPACITY - n;
    assert buf[len - n..len'] == buf[len - n..][..len' - (len - n)];
    assert buf[..len'] == buf[..len - n] + buf[len - n..len'];
  }

  /** One read, and whether the pattern is now in the window. */
  method SearchRead(buf: array<Byte>, len: nat, ghost chunks: seq<seq<Byte>>, data: seq<Byte>, expected: seq<Byte>)
    returns (len': nat, hit: bool)
    requires buf.Length == CAPACITY && len <= CAPACITY && |data| <= READ_SIZE
    requires Bounded(chunks) && buf[..len] == Window(chunks) && !Found(chunks, expected)
    modifies buf
    ensures len <= len' <= CAPACITY && Bounded(chunks + [data])
    ensures buf[..len'] == Window(chunks + [data])
    ensures hit <==> Found(chunks + [data], expected)
  {
    Snoc(chunks, data, expected);
    if data == [] {
      return len, false;
    }
    len' := FeedBuffer(buf, len, data);
    hit := Contains(buf[..len'], expected);
  }

  function AtMost50(len: nat): nat {
    if len > FIRST_BYTES then FIRST_BYTES else len
  }

  function UpTo50(w: seq<Byte>): seq<Byte> {
    w[..AtMost50(|w|)]
  }

  /** The loop went on exactly while reads were fine and did not complete the pattern, and
      stopped for the reason given; StillReading means that it has not stopped. */
  ghost predicate StoppedBy(chunks: seq<seq<Byte>>, statuses: seq<Status>, expected: seq<Byte>,
                            consumed: nat, outcome: Outcome)
    requires Bounded(chunks) && |statuses| == |chunks| && consumed <= |chunks|
  {
    && (outcome.PatternFound? <==> Found(chunks[..consumed], expected))
    && (consumed == 0 ==> outcome.StillReading?)
    && (consumed > 0 ==>
          && !Found(chunks[..consumed - 1], expected)
          && (forall j | 0 <= j < consumed - 1 :: statuses[j] == Ok)
          && (!outcome.PatternFound? ==>
                statuses[consumed - 1] == match outcome
                                          case Closed => EndOfFile
                                          case Failed => Error
                                          case _ => Ok))
  }

  function OutcomeOf(hit: bool, status: Status): Outcome {
    if hit then PatternFound
    else match status
         case EndOfFile => Closed
         case Error => Failed
         case Ok => StillReading
  }

  lemma StoppedNext(chunks: seq<seq<Byte>>, statuses: seq<Status>, expected: seq<Byte>, consumed: nat, hit: bool)
    requires Bounded(chunks) && |statuses| == |chunks| && consumed < |chunks|
    requires StoppedBy(chunks, statuses, expected, consumed, StillReading)
    requires hit <==> Found(chunks[..consumed + 1], expected)
    ensures StoppedBy(chunks, statuses, expected, consumed + 1, OutcomeOf(hit, statuses[consumed]))
  {
  }

  /** The reads are given by their bytes and their statuses. The reported first bytes are a
      slice of the work buffer itself: they are the beginning of what it holds now. */
  method ReadUntilPatternFound(chunks: seq<seq<Byte>>, statuses: seq<Status>, expected: seq<Byte>)
    returns (firstBytes: seq<Byte>, outcome: Outcome, consumed: nat)
    requires Bounded(chunks) && |statuses| == |chunks|
    ensures consumed <= |chunks| && StoppedBy(chunks, statuses, expected, consumed, outcome)
    ensures outcome.StillReading? ==> consumed == |chunks|
    ensures firstBytes == UpTo50(Window(chunks[..consumed]))
  {
    var buf := new Byte[CAPACITY];
    var len: nat, firstLen: nat := 0, 0;
    consumed, outcome := 0, StillReading;
    while consumed < |chunks| && outcome.StillReading?
      invariant len <= CAPACITY && firstLen == AtMost50(len)
      invariant ReadTo(chunks, statuses, expected, consumed, outcome, buf[..len])
    {
      TakeSnoc(chunks, consumed);
      var hit;
      len, hit := SearchRead(buf, len, chunks[..consumed], chunks[consumed], expected);
      StoppedNext(chunks, statuses, expected, consumed, hit);
      if firstLen < 100 && len > firstLen {
        firstLen := AtMost50(len);
      }
      outcome := OutcomeOf(hit, statuses[consumed]);
      consumed := consumed + 1;
    }
    firstBytes := buf[..firstLen];
    assert firstBytes == buf[..len][..firstLen];
  }

  /** Where the loop is, and what the buffer holds. */
  ghost predicate ReadTo(chunks: seq<seq<Byte>>, statuses: seq<Status>, expected: seq<Byte>, consumed: nat,
                         outcome: Outcome, window: seq<Byte>)
    requires Bounded(chunks) && |statuses| == |chunks|
  {
    && consumed <= |chunks| && window == Window(chunks[..consumed])
    && StoppedBy(chunks, statuses, expected, consumed, outcome)
  }

  lemma Snoc(chunks: seq<seq<Byte>>, data: seq<Byte>, pattern: seq<Byte>)
    requires Bounded(chunks) && |data| <= READ_SIZE
    ensures Bounded(chunks + [data])
    ensures Window(chunks + [data]) == Feed(Window(chunks), data)
    ensures data == [] ==> Window(chunks + [data]) == Window(chunks)
    ensures Stream(chunks + [data]) == Stream(chunks) + data
    ensures Found(chunks + [data], pattern) <==>
            Found(chunks, pattern) || (data != [] && Contains(Window(chunks + [data]), pattern))
  {
    assert (chunks + [data])[..|chunks|] == chunks;
  }

  // ---------------------------------------------------------------------------
  // Agreement with searching the whole stream
  // ---------------------------------------------------------------------------

  ghost function Total(sizes: seq<nat>): nat {
    if sizes == [] then 0 else Total(sizes[..|sizes| - 1]) + sizes[|sizes| - 1]
  }

  /** Byte number CAPACITY of the stream is a read boundary, or was not passed: no read
      overflows a buffer that is not exactly full. */
  ghost predicate Aligned(sizes: seq<nat>) {
    sizes == [] ||
    var front, last := sizes[..|sizes| - 1], sizes[|sizes| - 1];
    Aligned(front) && !(Total(front) < CAPACITY < Total(front) + last)
  }

  ghost function Sizes(chunks: seq<seq<Byte>>): (s: seq<nat>)
    ensures |s| == |chunks|
  {
    if chunks == [] then [] else Sizes(chunks[..|chunks| - 1]) + [|chunks[|chunks| - 1]|]
  }

  lemma SizesFront(chunks: seq<seq<Byte>>)
    requires chunks != []
    ensures Sizes(chunks)[..|chunks| - 1] == Sizes(chunks[..|chunks| - 1])
  {
  }

  lemma {:induction false} StreamLength(chunks: seq<seq<Byte>>)
    ensures |Stream(chunks)| == Total(Sizes(chunks))
  {
    if chunks != [] {
      SizesFront(chunks);
      StreamLength(chunks[..|chunks| - 1]);
    }
  }

  /** The most recent bytes of the stream, as many as fit. */
  ghost function Recent(s: seq<Byte>): seq<Byte> {
    if |s| <= CAPACITY then s else s[|s| - CAPACITY..]
  }

  lemma FeedFull(s: seq<Byte>, data: seq<Byte>)
    requires |s| >= CAPACITY && |data| <= READ_SIZE
    ensures Feed(Recent(s), data) == Recent(s + data)
  {
    var w, n := s[|s| - CAPACITY..], |data|;
    assert Recent(s) == w;
    assert n > 0 ==> Feed(w, data) == w[n..] + data;
    assert n == 0 ==> Feed(w, data) == w && s + data == s;
    assert (s + data)[|s| + n - CAPACITY..] == w[n..] + data;
  }

  /** Aligned reads keep the window contiguous. */
  lemma {:induction false} WindowIsRecent(chunks: seq<seq<Byte>>)
    requires Bounded(chunks) && Aligned(Sizes(chunks))
    ensures Window(chunks) == Recent(Stream(chunks))
  {
    if chunks != [] {
      var k := |chunks| - 1;
      SizesFront(chunks);
      WindowIsRecent(chunks[..k]);
      StreamLength(chunks[..k]);
      if |Stream(chunks[..k])| >= CAPACITY {
        FeedFull(Stream(chunks[..k]), chunks[k]);
      }
    }
  }

  lemma ContainsInPart(text: seq<Byte>, a: nat, b: nat, pattern: seq<Byte>)
    requires a <= b <= |text|
    requires Contains(text[a..b], pattern)
    ensures Contains(text, pattern)
  {
    var t :| 0 <= t <= b - a && OccursAt(text[a..b], pattern, t);
    assert forall j | a + t <= j < a + t + |pattern| :: text[j] == text[a..b][t..t + |pattern|][j - a - t];
    assert text[a + t..a + t + |pattern|] == pattern;
    assert OccursAt(text, pattern, a + t);
  }

  lemma OccursInFront(before: seq<Byte>, data: seq<Byte>, pattern: seq<Byte>, t: nat)
    requires OccursAt(before + data, pattern, t)
    ensures t + |pattern| <= |before| ==> OccursAt(before, pattern, t)
  {
    if t + |pattern| <= |before| {
      assert (before + data)[t..t + |pattern|] == before[t..t + |pattern|];
    }
  }

  /** A first occurrence ends in the last read, and so lies in the window. */
  lemma OccurrenceIsRecent(before: seq<Byte>, data: seq<Byte>, pattern: seq<Byte>)
    requires |data| <= READ_SIZE && |pattern| <= READ_SIZE
    requires Contains(before + data, pattern) && !Contains(before, pattern)
    ensures Contains(Recent(before + data), pattern)
  {
    var s := before + data;
    var t :| 0 <= t <= |s| && OccursAt(s, pattern, t);
    OccursInFront(before, data, pattern, t);
    if |s| > CAPACITY {
      var t' := t - (|s| - CAPACITY);
      assert Recent(s)[t'..t' + |pattern|] == s[t..t + |pattern|];
      assert OccursAt(Recent(s), pattern, t');
    }
  }

  lemma SearchStep(s: seq<Byte>, data: seq<Byte>, pattern: seq<Byte>)
    requires |data| <= READ_SIZE && |pattern| <= READ_SIZE
    requires data != []
    ensures Contains(s + data, pattern) <==> (s != [] && Contains(s, pattern)) || Contains(Recent(s + data), pattern)
  {
    var all := s + data;
    var from := if |all| <= CAPACITY then 0 else |all| - CAPACITY;
    assert all[from..|all|] == Recent(all);
    assert all[0..|s|] == s;
    if Contains(s, pattern) {
      ContainsInPart(all, 0, |s|, pattern);
    }
    if Contains(Recent(all), pattern) {
      ContainsInPart(all, from, |all|, pattern);
    }
    if Contains(all, pattern) {
      if s == [] {
        assert all == data;
      } else if !Contains(s, pattern) {
        OccurrenceIsRecent(s, data, pattern);
      }
    }
  }

  /** Found after some read means present in everything read so far, and conversely. */
  ghost predicate Agrees(chunks: seq<seq<Byte>>, pattern: seq<Byte>)
    requires Bounded(chunks)
  {
    Found(chunks, pattern) <==> Stream(chunks) != [] && Contains(Stream(chunks), pattern)
  }

  /** For aligned reads the search agrees with searching everything read so far. */
  lemma {:induction false} FoundIffInStream(chunks: seq<seq<Byte>>, pattern: seq<Byte>)
    requires Bounded(chunks) && Aligned(Sizes(chunks))
    requires |pattern| <= READ_SIZE
    ensures Agrees(chunks, pattern)
  {
    if chunks != [] {
      var k := |chunks| - 1;
      var s, data := Stream(chunks[..k]), chunks[k];
      SizesFront(chunks);
      FoundIffInStream(chunks[..k], pattern);
      WindowIsRecent(chunks);
      if data != [] {
        SearchStep(s, data, pattern);
      } else {
        assert s + data == s;
      }
    }
  }

  // ---------------------------------------------------------------------------
  // Exactly which read sizes are safe
  // ---------------------------------------------------------------------------

  /** The search agrees with the stream whatever the bytes read and the pattern. */
  ghost predicate AgreesFor(sizes: seq<nat>) {
    forall chunks, pattern: seq<Byte> | Bounded(chunks) && Sizes(chunks) == sizes && |pattern| <= READ_SIZE ::
      Agrees(chunks, pattern)
  }

  /** ... and does so after every read. */
  ghost predicate AlwaysAgrees(sizes: seq<nat>) {
    forall k | 0 <= k <= |sizes| :: AgreesFor(sizes[..k])
  }

  /** A stream of zeros in which a 1 ends the bytes before position `cut` and a 2 follows. */
  function Marked(cut: nat, from: nat, n: nat): (d: seq<Byte>)
    ensures |d| == n
    ensures forall i | 0 <= i < n :: d[i] == MarkAt(cut, from + i)
  {
    seq(n, i requires 0 <= i < n => MarkAt(cut, from + i))
  }

  function MarkAt(cut: nat, pos: nat): Byte {
    if pos + 1 == cut then 1 else if pos == cut then 2 else 0
  }

  ghost function MarkedChunks(cut: nat, sizes: seq<nat>): (chunks: seq<seq<Byte>>)
    ensures |chunks| == |sizes|
  {
    if sizes == [] then []
    else
      var front, last := sizes[..|sizes| - 1], sizes[|sizes| - 1];
      MarkedChunks(cut, front) + [Marked(cut, Total(front), last)]
  }

  lemma SizesSnoc(chunks: seq<seq<Byte>>, data: seq<Byte>)
    ensures Sizes(chunks + [data]) == Sizes(chunks) + [|data|]
    ensures Stream(chunks + [data]) == Stream(chunks) + data
  {
    assert (chunks + [data])[..|chunks|] == chunks;
  }

  lemma {:induction false} MarkedChunksAre(cut: nat, sizes: seq<nat>)
    ensures Sizes(MarkedChunks(cut, sizes)) == sizes
    ensures Stream(MarkedChunks(cut, sizes)) == Marked(cut, 0, Total(sizes))
  {
    if sizes != [] {
      var front, last := sizes[..|sizes| - 1], sizes[|sizes| - 1];
      var data := Marked(cut, Total(front), last);
      MarkedChunksAre(cut, front);
      SizesSnoc(MarkedChunks(cut, front), data);
      assert front + [last] == sizes;
      assert Marked(cut, 0, Total(front)) + data == Marked(cut, 0, Total(sizes));
    }
  }

  lemma {:induction false} SizesBound(chunks: seq<seq<Byte>>)
    requires forall i | 0 <= i < |chunks| :: Sizes(chunks)[i] <= READ_SIZE
    ensures Bounded(chunks)
  {
    if chunks != [] {
      var k := |chunks| - 1;
      SizesFront(chunks);
      forall i | 0 <= i < k
        ensures Sizes(chunks[..k])[i] <= READ_SIZE
      {
        assert Sizes(chunks[..k])[i] == Sizes(chunks)[i];
      }
      SizesBound(chunks[..k]);
      assert |chunks[k]| == Sizes(chunks)[k];
    }
  }

  /** A read that overflows a partly filled buffer hides a pattern that straddles it. */
  lemma StraddlingPatternMissed(w: seq<Byte>, data: seq<Byte>)
    requires |w| < CAPACITY < |w| + |data| && |data| <= READ_SIZE
    requires w == Marked(|w|, 0, |w|) && data == Marked(|w|, |w|, |data|)
    ensures !Contains(w, [1, 2]) && !Contains(Feed(w, data), [1, 2])
    ensures Contains(w + data, [1, 2])
  {
    var n, r := |data|, Feed(w, data);
    assert r[CAPACITY - n] == 2 && r[CAPACITY - n - 1] == w[CAPACITY - n - 1] == 0;
    forall t | 0 <= t < |r|
      ensures r[t] == 2 ==> t == CAPACITY - n
    {
      if t < |w| - n {
        assert r[t] == w[n + t];
      } else if t < CAPACITY - n {
        assert r[t] == w[t];
      } else {
        assert r[t] == data[t - (CAPACITY - n)];
      }
    }
    forall t: nat
      ensures !OccursAt(r, [1, 2], t) && !OccursAt(w, [1, 2], t)
    {
      if t + 2 <= |r| {
        assert r[t..t + 2][0] == r[t] && r[t..t + 2][1] == r[t + 1];
      }
      if t + 2 <= |w| {
        assert w[t..t + 2][1] == w[t + 1];
      }
    }
    assert (w + data)[|w| - 1..|w| + 1] == [1, 2];
    assert OccursAt(w + data, [1, 2], |w| - 1);
  }

  lemma MisalignedMisses(front: seq<nat>, last: nat)
    requires forall i | 0 <= i < |front| :: front[i] <= READ_SIZE
    requires last <= READ_SIZE && Total(front) < CAPACITY < Total(front) + last
    ensures !AgreesFor(front + [last])
  {
    var cut := Total(front);
    var chunks, data := MarkedChunks(cut, front), Marked(cut, cut, last);
    MarkedChunksAre(cut, front);
    SizesBound(chunks);
    SizesSnoc(chunks, data);
    MissedAfter(chunks, data);
    Disagreement(chunks + [data], [1, 2]);
  }

  lemma Disagreement(chunks: seq<seq<Byte>>, pattern: seq<Byte>)
    requires Bounded(chunks) && |pattern| <= READ_SIZE && pattern != []
    requires !Found(chunks, pattern) && Contains(Stream(chunks), pattern)
    ensures !AgreesFor(Sizes(chunks))
  {
    assert !Agrees(chunks, pattern);
  }

  lemma {:induction false} MisalignedAt(sizes: seq<nat>) returns (k: nat)
    requires !Aligned(sizes)
    ensures k < |sizes| && Total(sizes[..k]) < CAPACITY < Total(sizes[..k]) + sizes[k]
  {
    k := |sizes| - 1;
    if !Aligned(sizes[..k]) {
      var k' := MisalignedAt(sizes[..k]);
      assert sizes[..k][..k'] == sizes[..k'];
      k := k';
    }
  }

  lemma {:induction false} AlignedPrefix(sizes: seq<nat>, k: nat)
    requires k <= |sizes| && Aligned(sizes)
    ensures Aligned(sizes[..k])
  {
    if k < |sizes| {
      AlignedPrefix(sizes[..|sizes| - 1], k);
      assert sizes[..|sizes| - 1][..k] == sizes[..k];
    } else {
      assert sizes[..k] == sizes;
    }
  }

  lemma MissedAfter(front: seq<seq<Byte>>, data: seq<Byte>)
    requires Bounded(front) && |data| <= READ_SIZE
    requires var w := Stream(front);
             && |w| < CAPACITY < |w| + |data|
             && w == Marked(|w|, 0, |w|) && data == Marked(|w|, |w|, |data|)
    ensures Bounded(front + [data]) && !Found(front + [data], [1, 2])
    ensures Contains(Stream(front + [data]), [1, 2])
  {
    NothingLostYet(front);
    StraddlingPatternMissed(Stream(front), data);
    NotFoundYet(front, [1, 2]);
    Snoc(front, data, [1, 2]);
  }

  lemma {:induction false} NothingLostYet(chunks: seq<seq<Byte>>)
    requires Bounded(chunks) && |Stream(chunks)| <= CAPACITY
    ensures Window(chunks) == Stream(chunks)
  {
    if chunks != [] {
      NothingLostYet(chunks[..|chunks| - 1]);
    }
  }

  /** Until the buffer overflows, the reported bytes are the first ones of the stream, fifty at most. */
  lemma FirstBytesAre(chunks: seq<seq<Byte>>)
    requires Bounded(chunks) && |Stream(chunks)| <= CAPACITY
    ensures UpTo50(Window(chunks)) <= Stream(chunks)
    ensures |UpTo50(Window(chunks))| == if |Stream(chunks)| < 50 then |Stream(chunks)| else 50
  {
    NothingLostYet(chunks);
  }

  lemma {:induction false} NotFoundYet(chunks: seq<seq<Byte>>, pattern: seq<Byte>)
    requires Bounded(chunks) && |Stream(chunks)| <= CAPACITY && !Contains(Stream(chunks), pattern)
    ensures !Found(chunks, pattern)
  {
    if chunks != [] {
      var k := |chunks| - 1;
      var s := Stream(chunks[..k]);
      if Contains(s, pattern) {
        assert Stream(chunks)[0..|s|] == s;
        ContainsInPart(Stream(chunks), 0, |s|, pattern);
      }
      NotFoundYet(chunks[..k], pattern);
      NothingLostYet(chunks);
    }
  }

  lemma AlignedAgrees(sizes: seq<nat>)
    requires Aligned(sizes)
    ensures AgreesFor(sizes)
  {
    forall chunks, pattern: seq<Byte> | Bounded(chunks) && Sizes(chunks) == sizes && |pattern| <= READ_SIZE
      ensures Agrees(chunks, pattern)
    {
      FoundIffInStream(chunks, pattern);
    }
  }

  lemma AlignedAlwaysAgrees(sizes: seq<nat>)
    requires Aligned(sizes)
    ensures AlwaysAgrees(sizes)
  {
    forall k | 0 <= k <= |sizes|
      ensures AgreesFor(sizes[..k])
    {
      AlignedPrefix(sizes, k);
      AlignedAgrees(sizes[..k]);
    }
  }

  lemma MisalignedDisagrees(sizes: seq<nat>)
    requires forall i | 0 <= i < |sizes| :: sizes[i] <= READ_SIZE
    requires !Aligned(sizes)
    ensures !AlwaysAgrees(sizes)
  {
    var k := MisalignedAt(sizes);
    TakeSnoc(sizes, k);
    MisalignedMisses(sizes[..k], sizes[k]);
    PrefixDisagrees(sizes, k + 1);
  }

  lemma PrefixDisagrees(sizes: seq<nat>, k: nat)
    requires k <= |sizes| && !AgreesFor(sizes[..k])
    ensures !AlwaysAgrees(sizes)
  {
  }

  /** The bounded search agrees with searching the whole stream, for all bytes, patterns and
      after every read, if and only if no read overflows a partly filled buffer. */
  lemma AgreesIffAligned(sizes: seq<nat>)
    requires forall i | 0 <= i < |sizes| :: sizes[i] <= READ_SIZE
    ensures AlwaysAgrees(sizes) <==> Aligned(sizes)
  {
    if Aligned(sizes) {
      AlignedAlwaysAgrees(sizes);
    } else {
      MisalignedDisagrees(sizes);
    }
  }
}
