/** What an acceptable path looks like, character by character. */
module ContentPaths {
  import opened Common
  import opened ContentContract

  predicate HasSlash(s: string) {
    exists i :: 0 <= i < |s| && s[i] == '/'
  }

  lemma {:induction false} PartsHaveNoSlash(s: string)
    ensures forall p :: p in Split(s) ==> !HasSlash(p)
    decreases |s|
  {
    if s != "" {
      var rest := Split(s[1..]);
      PartsHaveNoSlash(s[1..]);
      forall p | p in Split(s) ensures !HasSlash(p) {
        if s[0] != '/' && p == [s[0]] + rest[0] {
          assert rest[0] in rest;
          forall i | 0 <= i < |p| ensures p[i] != '/' {
            assert i > 0 ==> p[i] == rest[0][i - 1];
          }
        }
      }
    }
  }

  function Slashes(s: string): nat {
    if s == "" then 0 else (if s[0] == '/' then 1 else 0) + Slashes(s[1..])
  }

  lemma {:induction false} SlashesCount(s: string)
    ensures |Split(s)| == 1 + Slashes(s)
    decreases |s|
  {
    if s != "" {
      SlashesCount(s[1..]);
    }
  }

  /** Parts begin and end as they must, and are joined by single slashes. */
  ghost predicate WellJoined(u: Unicode, s: string) {
    && s != "" && BeginsWell(u, s, 0) && EndsWell(u, s, |s| - 1)
    && forall i {:trigger s[i]} :: 0 <= i < |s| && s[i] == '/' ==>
         0 < i < |s| - 1 && EndsWell(u, s, i - 1) && BeginsWell(u, s, i + 1)
  }

  predicate BeginsWell(u: Unicode, s: string, i: int) {
    0 <= i < |s| && s[i] != '/' && s[i] != '.' && !u.space(s[i])
  }

  predicate EndsWell(u: Unicode, s: string, i: int) {
    0 <= i < |s| && s[i] != '/' && s[i] != '.' && s[i] != ' ' && !u.space(s[i])
  }

  lemma {:induction false} JoinedWell(u: Unicode, parts: seq<string>)
    requires parts != [] && PartsOk(u, parts) && forall p :: p in parts ==> !HasSlash(p)
    ensures WellJoined(u, Join(parts))
    decreases |parts|
  {
    var s, head := Join(parts), parts[0];
    assert head in parts && head[0] != '/' && head[|head| - 1] != '/';
    if |parts| > 1 {
      var tail := Join(parts[1..]);
      JoinedWell(u, parts[1..]);
      JoinTwo(u, head, tail);
    }
  }

  lemma JoinTwo(u: Unicode, head: string, tail: string)
    requires PartOk(u, head) && !HasSlash(head) && WellJoined(u, tail)
    ensures WellJoined(u, head + "/" + tail)
  {
    var s := head + "/" + tail;
    var n := |head|;
    assert forall i :: 0 <= i < n ==> s[i] == head[i];
    assert s[n] == '/' && forall i :: n < i < |s| ==> s[i] == tail[i - n - 1];
    assert forall i :: 0 <= i < n ==> head[i] != '/';
    forall i | 0 <= i < |s| && s[i] == '/'
      ensures 0 < i < |s| - 1 && EndsWell(u, s, i - 1) && BeginsWell(u, s, i + 1)
    {
      if i > n {
        assert tail[i - n - 1] == '/' && EndsWell(u, tail, i - n - 2) && BeginsWell(u, tail, i - n);
      }
    }
  }

  lemma {:induction false} SplitWell(u: Unicode, parts: seq<string>)
    requires parts != [] && WellJoined(u, Join(parts)) && forall p :: p in parts ==> !HasSlash(p)
    requires forall k :: 0 <= k < |parts| ==> !OneOf(Lower(BeforeDot(parts[k])), RESERVED)
    ensures PartsOk(u, parts)
    decreases |parts|
  {
    var head := parts[0];
    assert head in parts;
    if |parts| > 1 {
      var tail := Join(parts[1..]);
      SplitTwo(u, head, tail);
      forall k | 0 <= k < |parts[1..]| ensures !OneOf(Lower(BeforeDot(parts[1..][k])), RESERVED) {
        assert parts[1..][k] == parts[k + 1];
      }
      SplitWell(u, parts[1..]);
    }
  }

  lemma SplitTwo(u: Unicode, head: string, tail: string)
    requires !HasSlash(head) && WellJoined(u, head + "/" + tail)
    ensures WellJoined(u, tail) && head != "" && BeginsWell(u, head, 0) && EndsWell(u, head, |head| - 1)
  {
    var s := head + "/" + tail;
    var n := |head|;
    assert s[n] == '/' && BeginsWell(u, s, 0);
    assert 0 < n < |s| - 1 && EndsWell(u, s, n - 1) && BeginsWell(u, s, n + 1);
    assert s[0] == head[0] && s[n - 1] == head[n - 1];
    assert forall i :: n < i < |s| ==> s[i] == tail[i - n - 1];
    forall i | 0 <= i < |tail| && tail[i] == '/'
      ensures 0 < i < |tail| - 1 && EndsWell(u, tail, i - 1) && BeginsWell(u, tail, i + 1)
    {
      assert s[i + n + 1] == '/' && EndsWell(u, s, i + n) && BeginsWell(u, s, i + n + 2);
      assert i > 0;
    }
  }

  /** Neither a control character nor one that some file system forbids. */
  predicate PlainChar(c: char) {
    && c as int >= 32 && c as int != 127
    && c != '\\' && c != ':' && c != '*' && c != '?' && c != '"' && c != '<' && c != '>' && c != '|'
  }

  lemma Forbidden(c: char)
    ensures PlainChar(c) <==> c as int >= 32 && c as int != 127 && c !in FORBIDDEN
  {
    assert FORBIDDEN == ['\\', ':', '*', '?', '"', '<', '>', '|'];
  }

  lemma {:induction false} CharsRead(s: string)
    ensures CharsOk(s) <==> forall i :: 0 <= i < |s| ==> PlainChar(s[i])
    decreases |s|
  {
    if s != "" {
      CharsRead(s[1..]);
      Forbidden(s[0]);
      assert forall i :: 0 < i < |s| ==> s[i] == s[1..][i - 1];
      assert forall i :: 0 <= i < |s[1..]| ==> s[1..][i] == s[i + 1];
    }
  }

  lemma {:induction false} OneOfIs(s: string, names: seq<string>)
    ensures OneOf(s, names) <==> s in names
    decreases |names|
  {
    if names != [] {
      OneOfIs(s, names[1..]);
    }
  }

  lemma {:induction false} EachPartOk(u: Unicode, parts: seq<string>, k: nat)
    requires PartsOk(u, parts) && k < |parts|
    ensures PartOk(u, parts[k])
    decreases |parts|
  {
    if k > 0 {
      EachPartOk(u, parts[1..], k - 1);
    }
  }

  /** No part is, up to its first dot and in whatever case, a reserved name. */
  predicate NoneReserved(value: string) {
    forall k :: 0 <= k < |Split(value)| ==> Lower(BeforeDot(Split(value)[k])) !in RESERVED
  }

  /** The part after the last slash ends, in whatever case, in one of the suffixes. */
  predicate KnownSuffix(value: string) {
    Lower(Suffix(Split(value)[|Split(value)| - 1])) in SUFFIXES
  }

  /** A path is acceptable exactly if it is normalised, at most 240 bytes wide and made of plain
      characters; has at most eleven slashes; neither begins nor ends with one, and no two meet; no
      part begins with a dot, so that none is `..`, or ends with a dot or a space; none is a reserved
      name; and the last ends in a known suffix. */
  lemma AcceptedIff(u: Unicode, value: string)
    ensures ContentPath(u, value) <==>
              && u.nfc(value) && Width(u, value) <= 240 && WellJoined(u, value) && Slashes(value) <= 11
              && (forall i :: 0 <= i < |value| ==> PlainChar(value[i]))
              && NoneReserved(value) && KnownSuffix(value)
  {
    PartsHaveNoSlash(value);
    JoinSplit(value);
    SlashesCount(value);
    CharsRead(value);
    OneOfIs(Lower(Suffix(Split(value)[|Split(value)| - 1])), SUFFIXES);
    forall k | 0 <= k < |Split(value)|
      ensures OneOf(Lower(BeforeDot(Split(value)[k])), RESERVED) <==> Lower(BeforeDot(Split(value)[k])) in RESERVED
    {
      OneOfIs(Lower(BeforeDot(Split(value)[k])), RESERVED);
    }
    if PartsOk(u, Split(value)) {
      JoinedWell(u, Split(value));
      forall k | 0 <= k < |Split(value)| ensures !OneOf(Lower(BeforeDot(Split(value)[k])), RESERVED) {
        EachPartOk(u, Split(value), k);
      }
    } else if WellJoined(u, value) && NoneReserved(value) {
      SplitWell(u, Split(value));
    }
  }
}
