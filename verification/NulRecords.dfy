/** The reader of NUL-terminated records from a Git tree listing, fed in chunks. */
module NulRecords {
  type Byte = bv8

  const NUL: Byte := 0
  const CHUNK_BYTES := 64 * 1024
  const MAX_RECORD_BYTES := 64 * 1024

  datatype Ending = Complete | TooLong | Unterminated
  /** The records yielded, and how reading ended. */
  datatype Outcome = Outcome(records: seq<seq<Byte>>, ending: Ending)

  /** Position of the first NUL, or the length if there is none. */
  function FirstNul(s: seq<Byte>): (i: nat)
    ensures i <= |s| && (i < |s| ==> s[i] == NUL) && forall k :: 0 <= k < i ==> s[k] != NUL
  {
    if s == [] || s[0] == NUL then 0 else 1 + FirstNul(s[1..])
  }

  function Prepend(r: seq<Byte>, o: Outcome): Outcome {
    o.(records := [r] + o.records)
  }

  /** What reading the whole input means, chunks apart. */
  function Meaning(input: seq<Byte>): Outcome
    decreases |input|
  {
    var i := FirstNul(input);
    if i > MAX_RECORD_BYTES then Outcome([], TooLong)
    else if i == |input| then Outcome([], if input == [] then Complete else Unterminated)
    else Prepend(input[..i], Meaning(input[i + 1..]))
  }

  function Concat(chunks: seq<seq<Byte>>): seq<Byte> {
    if chunks == [] then [] else chunks[0] + Concat(chunks[1..])
  }

  /** The records of an input that ends as it should: its pieces between NULs. */
  function Pieces(input: seq<Byte>): seq<seq<Byte>>
    decreases |input|
  {
    var i := FirstNul(input);
    if i == |input| then [input] else [input[..i]] + Pieces(input[i + 1..])
  }

  lemma {:induction false} NulAt(a: seq<Byte>, b: seq<Byte>)
    ensures FirstNul(a) < |a| ==> FirstNul(a + b) == FirstNul(a)
    ensures FirstNul(a) == |a| ==> FirstNul(a + b) == |a| + FirstNul(b)
  {
    if a == [] {
      assert a + b == b;
    } else if a[0] != NUL {
      assert (a + b)[1..] == a[1..] + b;
      NulAt(a[1..], b);
    }
  }

  /** A record that is short enough, its NUL and what follows. */
  lemma MeaningOfRecord(r: seq<Byte>, rest: seq<Byte>)
    requires FirstNul(r) == |r|
    ensures Meaning(r + [NUL] + rest) == if |r| > MAX_RECORD_BYTES then Outcome([], TooLong)
              else Prepend(r, Meaning(rest))
  {
    NulAt(r, [NUL] + rest);
    assert r + [NUL] + rest == r + ([NUL] + rest);
    assert (r + [NUL] + rest)[..|r|] == r && (r + [NUL] + rest)[|r| + 1..] == rest;
  }

  function Resume(records: seq<seq<Byte>>, o: Outcome): Outcome {
    o.(records := records + o.records)
  }

  /** One yielded record more. */
  lemma ResumeNext(records: seq<seq<Byte>>, r: seq<Byte>, o: Outcome)
    ensures Resume(records, Prepend(r, o)) == Resume(records + [r], o)
  {
    assert records + ([r] + o.records) == (records + [r]) + o.records;
  }

  lemma PiecesHaveNoNul(s: seq<Byte>)
    ensures FirstNul(s[..FirstNul(s)]) == FirstNul(s)
  {
    var i := FirstNul(s);
    NulAt(s[..i], s[i..]);
    assert s[..i] + s[i..] == s;
  }

  function Tail(s: seq<Byte>): seq<Byte>
    requires FirstNul(s) < |s|
  {
    s[FirstNul(s) + 1..]
  }

  lemma CutAt(s: seq<Byte>, i: nat)
    requires i < |s|
    ensures s == s[..i] + [s[i]] + s[i + 1..]
  {
  }

  lemma CutAtNul(s: seq<Byte>)
    requires FirstNul(s) < |s|
    ensures s == s[..FirstNul(s)] + [NUL] + Tail(s)
  {
    CutAt(s, FirstNul(s));
  }

  /** What is read up to the first NUL of a chunk, with `held` from the chunks before it. */
  lemma FirstPiece(held: seq<Byte>, chunk: seq<Byte>, rest: seq<Byte>)
    requires FirstNul(held) == |held| && FirstNul(chunk) < |chunk|
    ensures var r := held + chunk[..FirstNul(chunk)];
            && FirstNul(r) == |r|
            && Meaning(held + (chunk + rest)) == if |r| > MAX_RECORD_BYTES then Outcome([], TooLong)
                 else Prepend(r, Meaning(Tail(chunk) + rest))
  {
    var first := chunk[..FirstNul(chunk)];
    PiecesHaveNoNul(chunk);
    NulAt(held, first);
    CutAtNul(chunk);
    assert held + (chunk + rest) == (held + first) + [NUL] + (Tail(chunk) + rest);
    MeaningOfRecord(held + first, Tail(chunk) + rest);
  }

  /** Too much without a NUL is too long, whatever follows. */
  lemma LongPending(pending: seq<Byte>, rest: seq<Byte>)
    requires FirstNul(pending) == |pending| > MAX_RECORD_BYTES
    ensures Meaning(pending + rest) == Outcome([], TooLong)
  {
    NulAt(pending, rest);
  }

  lemma ResumeNothing(records: seq<seq<Byte>>, o: Outcome)
    ensures Resume([], o) == o
    ensures Resume(records, Outcome([], o.ending)) == Outcome(records, o.ending)
  {
    assert [] + o.records == o.records && records + [] == records;
  }

  lemma PiecesOf(s: seq<Byte>)
    ensures FirstNul(s) == |s| ==> Pieces(s) == [s]
    ensures FirstNul(s) < |s| ==>
              |Pieces(s)| > 1 && Pieces(s)[0] == s[..FirstNul(s)] && Pieces(s)[1..] == Pieces(Tail(s))
  {
  }

  // ------------------------------------------------------------------ the reader

  /** `chunk.split(NUL)`. */
  method Split(chunk: seq<Byte>) returns (pieces: seq<seq<Byte>>)
    ensures pieces == Pieces(chunk)
  {
    pieces := [];
    var rest := chunk;
    var i := FirstNul(rest);
    while i < |rest|
      invariant i == FirstNul(rest)
      invariant pieces + Pieces(rest) == Pieces(chunk)
      decreases |rest|
    {
      assert pieces + ([rest[..i]] + Pieces(rest[i + 1..])) == (pieces + [rest[..i]]) + Pieces(rest[i + 1..]);
      pieces := pieces + [rest[..i]];
      rest := rest[i + 1..];
      i := FirstNul(rest);
    }
    pieces := pieces + [rest];
  }

  /** `_iter_nul_records`: whatever the chunks, it yields and ends as the whole input says. */
  method ReadRecords(chunks: seq<seq<Byte>>) returns (o: Outcome)
    requires forall k :: 0 <= k < |chunks| ==> |chunks[k]| <= CHUNK_BYTES
    ensures o == Meaning(Concat(chunks))
  {
    var yielded: seq<seq<Byte>>, pending: seq<Byte> := [], [];
    ghost var goal, rest := Meaning(Concat(chunks)), chunks;
    ResumeNothing([], goal);
    assert [] + Concat(chunks) == Concat(chunks);
    var k := 0;
    while k < |chunks|
      invariant 0 <= k <= |chunks| && rest == chunks[k..]
      invariant FirstNul(pending) == |pending| <= MAX_RECORD_BYTES
      invariant goal == Resume(yielded, Meaning(pending + Concat(rest)))
    {
      assert rest[0] == chunks[k];
      rest := rest[1..];
      var tooLong;
      tooLong, yielded, pending := ReadChunk(chunks[k], yielded, pending, Concat(rest));
      if tooLong {
        return Outcome(yielded, TooLong);
      }
      k := k + 1;
    }
    assert pending + Concat(rest) == pending;
    o := Outcome(yielded, if pending == [] then Complete else Unterminated);
    ResumeNothing(yielded, Meaning(pending));
  }

  /** The body of the loop for one chunk; `rest` is what later chunks will bring. */
  method ReadChunk(chunk: seq<Byte>, before: seq<seq<Byte>>, held: seq<Byte>, ghost rest: seq<Byte>)
    returns (tooLong: bool, yielded: seq<seq<Byte>>, pending: seq<Byte>)
    requires |chunk| <= CHUNK_BYTES && FirstNul(held) == |held| <= MAX_RECORD_BYTES
    ensures FirstNul(pending) == |pending| && (!tooLong ==> |pending| <= MAX_RECORD_BYTES)
    ensures Resume(before, Meaning(held + (chunk + rest)))
            == if tooLong then Outcome(yielded, TooLong) else Resume(yielded, Meaning(pending + rest))
  {
    yielded := before;
    var pieces := Split(chunk);
    PiecesOf(chunk);
    pending := held + pieces[0];
    tooLong := |pending| > MAX_RECORD_BYTES;
    ResumeNothing(before, Outcome([], TooLong));
    if |pieces| == 1 {
      NulAt(held, chunk);
      assert held + (chunk + rest) == pending + rest;
      if tooLong {
        LongPending(pending, rest);
      }
      return;
    }
    FirstPiece(held, chunk, rest);
    if tooLong {
      return;
    }
    ResumeNext(yielded, pending, Meaning(Tail(chunk) + rest));
    yielded := yielded + [pending];
    tooLong, yielded, pending := ReadMiddle(pieces[1..], yielded, Tail(chunk), rest);
  }

  /** The pieces after the first: all but the last are whole records. */
  method ReadMiddle(pieces: seq<seq<Byte>>, before: seq<seq<Byte>>, ghost chunk: seq<Byte>, ghost rest: seq<Byte>)
    returns (tooLong: bool, yielded: seq<seq<Byte>>, pending: seq<Byte>)
    requires pieces == Pieces(chunk) && |chunk| < CHUNK_BYTES
    ensures FirstNul(pending) == |pending| && (!tooLong ==> |pending| <= MAX_RECORD_BYTES)
    ensures Resume(before, Meaning(chunk + rest))
            == if tooLong then Outcome(yielded, TooLong) else Resume(yielded, Meaning(pending + rest))
  {
    yielded := before;
    ghost var goal, tail := Resume(before, Meaning(chunk + rest)), chunk;
    var j := 0;
    PiecesOf(tail);
    while j < |pieces| - 1
      invariant 0 <= j <= |pieces| - 1 && Pieces(tail) == pieces[j..] && |tail| < CHUNK_BYTES
      invariant goal == Resume(yielded, Meaning(tail + rest))
    {
      PiecesOf(tail);
      assert pieces[j..][1..] == pieces[j + 1..];
      assert [] + (tail + rest) == tail + rest && [] + pieces[j] == pieces[j];
      FirstPiece([], tail, rest);
      if |pieces[j]| > MAX_RECORD_BYTES {
        ResumeNothing(yielded, Outcome([], TooLong));
        return true, yielded, [];
      }
      ResumeNext(yielded, pieces[j], Meaning(Tail(tail) + rest));
      yielded := yielded + [pieces[j]];
      tail := Tail(tail);
      j := j + 1;
    }
    PiecesOf(tail);
    pending := pieces[j];
    tooLong := false;
  }

  // ---------------------------------------------------------------- the main results

  function Encode(records: seq<seq<Byte>>): seq<Byte> {
    if records == [] then [] else records[0] + [NUL] + Encode(records[1..])
  }

  ghost predicate RecordOk(r: seq<Byte>) {
    |r| <= MAX_RECORD_BYTES && FirstNul(r) == |r|
  }

  ghost predicate RecordsOk(records: seq<seq<Byte>>) {
    forall i :: 0 <= i < |records| ==> RecordOk(records[i])
  }

  lemma OkCons(r: seq<Byte>, rest: seq<seq<Byte>>)
    ensures RecordOk(r) && RecordsOk(rest) ==> RecordsOk([r] + rest)
    ensures Encode([r] + rest) == r + [NUL] + Encode(rest)
  {
    assert ([r] + rest)[1..] == rest;
  }

  /** Reading finishes with exactly the records that were written. */
  lemma {:induction false} ReadsWhatWasWritten(records: seq<seq<Byte>>)
    requires RecordsOk(records)
    ensures Meaning(Encode(records)) == Outcome(records, Complete)
    decreases |records|
  {
    if records != [] {
      var r, rest := records[0], records[1..];
      assert RecordOk(r);
      ReadsWhatWasWritten(rest);
      MeaningOfRecord(r, Encode(rest));
      assert records == [r] + rest;
    }
  }

  lemma OneRecordMore(r: seq<Byte>, rest: seq<Byte>)
    requires FirstNul(r) == |r| <= MAX_RECORD_BYTES
    requires RecordsOk(Meaning(rest).records) && Encode(Meaning(rest).records) == rest
    ensures RecordsOk(Meaning(r + [NUL] + rest).records)
    ensures Encode(Meaning(r + [NUL] + rest).records) == r + [NUL] + rest
  {
    MeaningOfRecord(r, rest);
    OkCons(r, Meaning(rest).records);
  }

  /** Reading finishes only on an input that is such records, the ones it yields. */
  lemma {:induction false} FinishesOnlyOnRecords(input: seq<Byte>)
    requires Meaning(input).ending.Complete?
    ensures RecordsOk(Meaning(input).records) && Encode(Meaning(input).records) == input
    decreases |input|
  {
    if FirstNul(input) < |input| {
      CutAtNul(input);
      PiecesHaveNoNul(input);
      FinishesOnlyOnRecords(Tail(input));
      OneRecordMore(input[..FirstNul(input)], Tail(input));
    }
  }

  ghost predicate RecordsFit(pieces: seq<seq<Byte>>) {
    forall k :: 0 <= k < |pieces| ==> |pieces[k]| <= MAX_RECORD_BYTES
  }

  lemma FitCons(r: seq<Byte>, rest: seq<seq<Byte>>)
    ensures RecordsFit([r] + rest) <==> |r| <= MAX_RECORD_BYTES && RecordsFit(rest)
  {
    if RecordsFit([r] + rest) {
      assert |([r] + rest)[0]| <= MAX_RECORD_BYTES;
      forall k | 0 <= k < |rest| ensures |rest[k]| <= MAX_RECORD_BYTES {
        assert rest[k] == ([r] + rest)[k + 1];
      }
    }
  }

  /** It finishes exactly when the input is empty or NUL-terminated and every record fits; an
      input that fits but lacks its last NUL is reported as unterminated. */
  lemma {:induction false} EndingTells(input: seq<Byte>)
    ensures var pieces := Pieces(input);
            match Meaning(input).ending
            case Complete => pieces[|pieces| - 1] == [] && RecordsFit(pieces)
            case Unterminated => pieces[|pieces| - 1] != [] && RecordsFit(pieces)
            case TooLong => !RecordsFit(pieces)
    decreases |input|
  {
    var i := FirstNul(input);
    PiecesOf(input);
    if i < |input| {
      EndingTells(Tail(input));
      FitCons(input[..i], Pieces(Tail(input)));
      assert Pieces(input) == [input[..i]] + Pieces(Tail(input));
    } else {
      FitCons(input, []);
      assert [input] + [] == [input];
    }
  }
}
