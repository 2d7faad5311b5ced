/** Splitting, joining and replacing text. C strings are modelled as byte sequences without their
    terminator; the results are fresh buffers with it. */
module Strings {
  import opened ArcTypes

  predicate MatchAt(text: seq<byte>, i: nat, needle: seq<byte>) {
    i + |needle| <= |text| && text[i..i + |needle|] == needle
  }

  lemma MatchFits(text: seq<byte>, i: nat, needle: seq<byte>)
    requires MatchAt(text, i, needle)
    ensures i + |needle| <= |text| && text[i..i + |needle|] == needle
  {
  }

  /** The pieces between delimiters, from `start` on, scanning from `i`. */
  function SplitFrom(text: seq<byte>, delimiter: seq<byte>, start: nat, i: nat): (parts: seq<seq<byte>>)
    requires |delimiter| > 0 && start <= i <= |text|
    ensures |parts| > 0
    decreases |text| - i
  {
    if i == |text| then [text[start..]]
    else if MatchAt(text, i, delimiter) then
      [text[start..i]] + SplitFrom(text, delimiter, i + |delimiter|, i + |delimiter|)
    else SplitFrom(text, delimiter, start, i + 1)
  }

  function Split(text: seq<byte>, delimiter: seq<byte>): seq<seq<byte>>
    requires |delimiter| > 0
  {
    SplitFrom(text, delimiter, 0, 0)
  }

  /** The pieces with a separator between each two. */
  function Join(parts: seq<seq<byte>>, separator: seq<byte>): seq<byte> {
    if |parts| == 0 then []
    else if |parts| == 1 then parts[0]
    else Join(parts[..|parts| - 1], separator) + separator + parts[|parts| - 1]
  }

  /** `text` from `i` on with every occurrence of a non-empty `from` replaced, scanning left to right. */
  function ReplaceFrom(text: seq<byte>, from: seq<byte>, to: seq<byte>, i: nat): seq<byte>
    requires |from| > 0 && i <= |text|
    decreases |text| - i
  {
    if i == |text| then []
    else if MatchAt(text, i, from) then to + ReplaceFrom(text, from, to, i + |from|)
    else [text[i]] + ReplaceFrom(text, from, to, i + 1)
  }

  /** An empty pattern replaces nothing. */
  function Replace(text: seq<byte>, from: seq<byte>, to: seq<byte>): seq<byte> {
    if |from| == 0 then text else ReplaceFrom(text, from, to, 0)
  }

  lemma Regroup(a: seq<byte>, b: seq<byte>, c: seq<byte>)
    ensures a + (b + c) == (a + b) + c
  {
  }

  /** The first piece comes first, with a separator behind it if there are more. */
  lemma {:induction false} JoinFirst(first: seq<byte>, rest: seq<seq<byte>>, separator: seq<byte>)
    ensures Join([], separator) == []
    ensures Join([first] + rest, separator) == if rest == [] then first else first + separator + Join(rest, separator)
  {
    var parts := [first] + rest;
    if |rest| == 1 {
      assert parts[..1] == [first];
    } else if |rest| > 1 {
      assert parts[..|parts| - 1] == [first] + rest[..|rest| - 1];
      JoinFirst(first, rest[..|rest| - 1], separator);
    }
  }

  /** One step of both scans. */
  lemma ScanStep(text: seq<byte>, from: seq<byte>, to: seq<byte>, start: nat, i: nat)
    requires |from| > 0 && start <= i < |text|
    ensures MatchAt(text, i, from) ==>
              && i + |from| <= |text|
              && SplitFrom(text, from, start, i) == [text[start..i]] + SplitFrom(text, from, i + |from|, i + |from|)
              && ReplaceFrom(text, from, to, i) == to + ReplaceFrom(text, from, to, i + |from|)
    ensures !MatchAt(text, i, from) ==>
              && SplitFrom(text, from, start, i) == SplitFrom(text, from, start, i + 1)
              && ReplaceFrom(text, from, to, i) == [text[i]] + ReplaceFrom(text, from, to, i + 1)
  {
  }

  lemma ScanEnd(text: seq<byte>, from: seq<byte>, to: seq<byte>, start: nat)
    requires |from| > 0 && start <= |text|
    ensures Join(SplitFrom(text, from, start, |text|), to) == text[start..]
    ensures ReplaceFrom(text, from, to, |text|) == []
  {
  }

  lemma {:induction false} JoinSplitFrom(text: seq<byte>, from: seq<byte>, to: seq<byte>, start: nat, i: nat)
    requires |from| > 0 && start <= i <= |text|
    ensures Join(SplitFrom(text, from, start, i), to) == text[start..i] + ReplaceFrom(text, from, to, i)
    decreases |text| - i
  {
    hide *;
    if i == |text| {
      ScanEnd(text, from, to, start);
      assert text[start..] + [] == text[start..i];
    } else {
      ScanStep(text, from, to, start, i);
      if MatchAt(text, i, from) {
        var next := i + |from|;
        var rest := ReplaceFrom(text, from, to, next);
        JoinSplitFrom(text, from, to, next, next);
        assert text[next..next] + rest == rest;
        JoinFirst(text[start..i], SplitFrom(text, from, next, next), to);
        Regroup(text[start..i], to, rest);
      } else {
        JoinSplitFrom(text, from, to, start, i + 1);
        assert text[start..i + 1] == text[start..i] + [text[i]];
        Regroup(text[start..i], [text[i]], ReplaceFrom(text, from, to, i + 1));
      }
    }
  }

  /** Replacing is splitting at the old text and joining with the new; an empty text is found nowhere. */
  lemma ReplaceIsJoinSplit(text: seq<byte>, from: seq<byte>, to: seq<byte>)
    ensures Replace(text, from, to) == if |from| == 0 then text else Join(Split(text, from), to)
  {
    if |from| > 0 {
      JoinSplitFrom(text, from, to, 0, 0);
      assert text[0..0] == [];
    }
  }

  lemma {:induction false} ReplaceSame(text: seq<byte>, d: seq<byte>, i: nat)
    requires |d| > 0 && i <= |text|
    ensures ReplaceFrom(text, d, d, i) == text[i..]
    decreases |text| - i
  {
    hide MatchAt;
    if i < |text| {
      if MatchAt(text, i, d) {
        MatchFits(text, i, d);
        ReplaceSame(text, d, i + |d|);
        assert text[i..] == text[i..i + |d|] + text[i + |d|..];
      } else {
        ReplaceSame(text, d, i + 1);
        assert text[i..] == [text[i]] + text[i + 1..];
      }
    }
  }

  /** Joining the pieces with the delimiter gives the text back. */
  lemma JoinSplitRoundTrip(text: seq<byte>, delimiter: seq<byte>)
    requires |delimiter| > 0
    ensures Join(Split(text, delimiter), delimiter) == text
  {
    ReplaceIsJoinSplit(text, delimiter, delimiter);
    ReplaceSame(text, delimiter, 0);
  }

  /** No occurrence starts in this stretch of the text. */
  predicate NoMatchIn(text: seq<byte>, d: seq<byte>, lo: nat, hi: nat) {
    forall i: nat | lo <= i < hi :: !MatchAt(text, i, d)
  }

  /** The bytes of `d` stand in `text` from `i` on. */
  predicate Occurs(text: seq<byte>, d: seq<byte>, i: nat) {
    i + |d| <= |text| && forall k: nat | k < |d| :: text[i + k] == d[k]
  }

  lemma MatchIff(text: seq<byte>, d: seq<byte>, i: nat)
    ensures MatchAt(text, i, d) <==> Occurs(text, d, i)
  {
    if MatchAt(text, i, d) {
      forall k: nat | k < |d|
        ensures text[i + k] == d[k]
      {
        assert text[i..i + |d|][k] == d[k];
      }
    }
  }

  /** Pieces cut as early as possible: none contains a delimiter, and in each piece followed by a
      delimiter that one is the first. */
  predicate CutEarly(parts: seq<seq<byte>>, d: seq<byte>) {
    && (forall k: nat, j: nat | k < |parts| && j < |parts[k]| :: !Occurs(parts[k], d, j))
    && (forall k: nat, j: nat | k < |parts| - 1 && j < |parts[k]| :: !Occurs(parts[k] + d, d, j))
  }

  lemma {:induction false} PiecesCleanFrom(text: seq<byte>, d: seq<byte>, start: nat, i: nat)
    requires |d| > 0 && start <= i <= |text| && NoMatchIn(text, d, start, i)
    ensures CutEarly(SplitFrom(text, d, start, i), d)
    decreases |text| - i
  {
    hide Occurs, CutEarly, MatchAt;
    if i == |text| {
      StretchFree(text, d, start, i, i);
      assert text[start..] == text[start..i];
      LastPiece(text[start..i], d);
    } else if MatchAt(text, i, d) {
      MatchFits(text, i, d);
      StretchFree(text, d, start, i, i);
      StretchFree(text, d, start, i, i + |d|);
      assert text[start..i + |d|] == text[start..i] + d;
      PiecesCleanFrom(text, d, i + |d|, i + |d|);
      OnePieceMore(text[start..i], SplitFrom(text, d, i + |d|, i + |d|), d);
    } else {
      PiecesCleanFrom(text, d, start, i + 1);
    }
  }

  lemma LastPiece(piece: seq<byte>, d: seq<byte>)
    requires forall j: nat | j < |piece| :: !Occurs(piece, d, j)
    ensures CutEarly([piece], d)
  {
    hide Occurs;
  }

  lemma OnePieceMore(piece: seq<byte>, rest: seq<seq<byte>>, d: seq<byte>)
    requires forall j: nat | j < |piece| :: !Occurs(piece, d, j) && !Occurs(piece + d, d, j)
    requires CutEarly(rest, d)
    ensures CutEarly([piece] + rest, d)
  {
    hide Occurs;
    var parts := [piece] + rest;
    assert forall k: nat | 0 < k < |parts| :: parts[k] == rest[k - 1];
  }

  lemma StretchFree(text: seq<byte>, d: seq<byte>, start: nat, i: nat, end: nat)
    requires |d| > 0 && start <= i <= end <= |text| && NoMatchIn(text, d, start, i)
    ensures forall j: nat | j < i - start :: !Occurs(text[start..end], d, j)
  {
    forall j: nat | j < i - start
      ensures !Occurs(text[start..end], d, j)
    {
      MatchIff(text, d, start + j);
      hide Occurs, MatchAt;
      if Occurs(text[start..end], d, j) {
        OccursThere(text, d, start, end, j);
      }
    }
  }

  lemma OccursThere(text: seq<byte>, d: seq<byte>, start: nat, end: nat, j: nat)
    requires start <= end <= |text| && Occurs(text[start..end], d, j)
    ensures Occurs(text, d, start + j)
  {
    forall k: nat | k < |d|
      ensures text[start + j + k] == d[k]
    {
      assert text[start..end][j + k] == d[k];
    }
  }

  /** A split cuts at the leftmost delimiters, and no piece contains one. With the round trip above this
      leaves one way to split. */
  lemma PiecesClean(text: seq<byte>, d: seq<byte>)
    requires |d| > 0
    ensures CutEarly(Split(text, d), d)
  {
    PiecesCleanFrom(text, d, 0, 0);
  }

  // ---- In place -----------------------------------------------------------------------------------

  /** Compare at a fixed position, byte by byte. */
  method Matches(text: seq<byte>, pos: nat, needle: seq<byte>) returns (b: bool)
    ensures b == MatchAt(text, pos, needle)
  {
    if pos + |needle| > |text| {
      return false;
    }
    var j := 0;
    while j < |needle|
      invariant j <= |needle| && text[pos..pos + j] == needle[..j]
    {
      if text[pos + j] != needle[j] {
        assert text[pos..pos + |needle|][j] != needle[j];
        return false;
      }
      assert text[pos..pos + j + 1] == text[pos..pos + j] + [text[pos + j]];
      j := j + 1;
    }
    return true;
  }

  /** A buffer holds a string: its bytes, then the terminator. */
  predicate Holds(buffer: array<byte>, s: seq<byte>)
    reads buffer
  {
    buffer.Length == |s| + 1 && buffer[..|s|] == s && buffer[|s|] == 0
  }

  method CopyInto(buffer: array<byte>, at: nat, s: seq<byte>) returns (next: nat)
    requires at + |s| <= buffer.Length
    modifies buffer
    ensures next == at + |s| && buffer[..next] == old(buffer[..at]) + s
  {
    ghost var before := buffer[..at];
    var k := 0;
    while k < |s|
      invariant k <= |s| && buffer[..at + k] == before + s[..k]
    {
      buffer[at + k] := s[k];
      k := k + 1;
    }
    assert s[..|s|] == s;
    next := at + |s|;
  }

  /** The first pass of `String.Replace`. */
  method MeasureReplaced(text: seq<byte>, from: seq<byte>, to: seq<byte>) returns (length: nat)
    requires |from| > 0
    ensures length == |ReplaceFrom(text, from, to, 0)|
  {
    hide MatchAt;
    var i := 0;
    length := 0;
    while i < |text|
      invariant i <= |text| && length + |ReplaceFrom(text, from, to, i)| == |ReplaceFrom(text, from, to, 0)|
      decreases |text| - i
    {
      var found := Matches(text, i, from);
      if found {
        MatchFits(text, i, from);
        length, i := length + |to|, i + |from|;
      } else {
        length, i := length + 1, i + 1;
      }
    }
  }

  /** The second pass: it writes exactly the bytes measured. */
  method FillReplaced(text: seq<byte>, from: seq<byte>, to: seq<byte>, buffer: array<byte>,
    length: nat)
    requires |from| > 0 && length == |ReplaceFrom(text, from, to, 0)| && buffer.Length == length + 1
    modifies buffer
    ensures Holds(buffer, ReplaceFrom(text, from, to, 0))
  {
    hide MatchAt, SplitFrom;
    ghost var whole := ReplaceFrom(text, from, to, 0);
    ScanEnd(text, from, to, 0);
    hide ReplaceFrom;
    var out: nat, i: nat := 0, 0;
    assert buffer[..0] + whole == whole;
    while i < |text|
      invariant i <= |text| && out + |ReplaceFrom(text, from, to, i)| == |whole|
      invariant buffer[..out] + ReplaceFrom(text, from, to, i) == whole
      decreases |text| - i
    {
      var found := Matches(text, i, from);
      ghost var done := buffer[..out];
      ScanStep(text, from, to, i, i);
      if found {
        MatchFits(text, i, from);
        ghost var next := ReplaceFrom(text, from, to, i + |from|);
        out := CopyInto(buffer, out, to);
        Regroup(done, to, next);
        i := i + |from|;
      } else {
        ghost var next := ReplaceFrom(text, from, to, i + 1);
        buffer[out] := text[i];
        assert buffer[..out + 1] == done + [text[i]];
        out := out + 1;
        Regroup(done, [text[i]], next);
        i := i + 1;
      }
    }
    buffer[length] := 0;
    assert buffer[..length] == whole;
  }

  /** `String.Replace`: measure the result, then fill it; an empty pattern copies the text. */
  method ReplaceText(text: seq<byte>, from: seq<byte>, to: seq<byte>) returns (buffer: array<byte>)
    ensures fresh(buffer) && Holds(buffer, Replace(text, from, to))
  {
    if |from| == 0 {
      buffer := new byte[|text| + 1](_ => 0);
      var end := CopyInto(buffer, 0, text);
      buffer[|text|] := 0;
      assert buffer[..|text|] == text;
      return;
    }
    var length := MeasureReplaced(text, from, to);
    buffer := new byte[length + 1](_ => 0);
    FillReplaced(text, from, to, buffer, length);
  }

  /** `String.Split`: count the pieces, then cut them. */
  method SplitText(text: seq<byte>, delimiter: seq<byte>) returns (pieces: array<seq<byte>>)
    requires |delimiter| > 0
    ensures fresh(pieces) && pieces[..] == Split(text, delimiter)
  {
    var count, i := 1, 0;
    ghost var start: nat := 0;
    while i < |text|
      invariant start <= i <= |text| && count - 1 + |SplitFrom(text, delimiter, start, i)| == |Split(text, delimiter)|
      decreases |text| - i
    {
      var found := Matches(text, i, delimiter);
      if found {
        count, i := count + 1, i + |delimiter|;
        start := i;
      } else {
        i := i + 1;
      }
    }
    pieces := new seq<byte>[count](_ => []);
    var index: nat, from: nat := 0, 0;
    i := 0;
    assert pieces[..0] + SplitFrom(text, delimiter, 0, 0) == Split(text, delimiter);
    while i < |text|
      invariant from <= i <= |text| && index + |SplitFrom(text, delimiter, from, i)| == count == pieces.Length
      invariant pieces[..index] + SplitFrom(text, delimiter, from, i) == Split(text, delimiter)
      decreases |text| - i
    {
      var found := Matches(text, i, delimiter);
      if found {
        ghost var rest := SplitFrom(text, delimiter, i + |delimiter|, i + |delimiter|);
        assert pieces[..index] + ([text[from..i]] + rest) == (pieces[..index] + [text[from..i]]) + rest;
        pieces[index] := text[from..i];
        assert pieces[..index + 1] == pieces[..index] + [text[from..i]];
        index, i := index + 1, i + |delimiter|;
        from := i;
      } else {
        i := i + 1;
      }
    }
    pieces[index] := text[from..];
    assert pieces[..] == pieces[..index] + [text[from..]];
  }

  /** `Array.Join`: add up the lengths, then copy. */
  method JoinText(parts: seq<seq<byte>>, separator: seq<byte>) returns (buffer: array<byte>)
    ensures fresh(buffer) && Holds(buffer, Join(parts, separator))
  {
    var total := 0;
    for i := 0 to |parts|
      invariant total == |Join(parts[..i], separator)|
    {
      assert parts[..i + 1][..i] == parts[..i];
      total := total + |parts[i]|;
      if i != 0 {
        total := total + |separator|;
      }
    }
    assert parts[..|parts|] == parts;
    buffer := new byte[total + 1](_ => 0);
    var pos := 0;
    for i := 0 to |parts|
      invariant buffer.Length == total + 1 && pos == |Join(parts[..i], separator)|
      invariant pos <= total && buffer[..pos] == Join(parts[..i], separator)
    {
      assert parts[..i + 1][..i] == parts[..i];
      JoinGrows(parts, separator, i + 1);
      if i != 0 {
        pos := CopyInto(buffer, pos, separator);
      }
      pos := CopyInto(buffer, pos, parts[i]);
    }
    buffer[pos] := 0;
  }

  lemma {:induction false} JoinGrows(parts: seq<seq<byte>>, separator: seq<byte>, i: nat)
    requires i <= |parts|
    ensures |Join(parts[..i], separator)| <= |Join(parts, separator)|
    decreases |parts|
  {
    if i == |parts| {
      assert parts[..i] == parts;
    } else {
      assert parts[..|parts| - 1][..i] == parts[..i];
      JoinGrows(parts[..|parts| - 1], separator, i);
    }
  }
}
