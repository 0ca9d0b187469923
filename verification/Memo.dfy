/** The transfer memo that carries a transaction id through a bank: the id between two payment
    marks, with every dash replaced by a separator. */
module Memo {

  const PAYMENT_MARK: string := "PXL"
  const PAYMENT_SEPARATOR: string := "LXP"

  // ---- the string operations used ----

  predicate StartsAt(s: string, p: string, i: int) {
    0 <= i && i + |p| <= |s| && s[i..i + |p|] == p
  }

  predicate Contains(s: string, p: string) {
    exists i :: 0 <= i <= |s| && StartsAt(s, p, i)
  }

  function IndexOfFrom(s: string, p: string, from: nat): (r: int)
    ensures r == -1 ==> forall i :: from <= i ==> !StartsAt(s, p, i)
    ensures r != -1 ==> from <= r && StartsAt(s, p, r)
                        && forall i :: from <= i < r ==> !StartsAt(s, p, i)
    decreases |s| - from
  {
    if StartsAt(s, p, from) then from
    else if from >= |s| then -1
    else IndexOfFrom(s, p, from + 1)
  }

  function IndexOf(s: string, p: string): int {
    IndexOfFrom(s, p, 0)
  }

  function LastIndexOfFrom(s: string, p: string, from: int): (r: int)
    requires -1 <= from
    ensures r == -1 ==> forall i :: i <= from ==> !StartsAt(s, p, i)
    ensures r != -1 ==> 0 <= r <= from && StartsAt(s, p, r)
                        && forall i :: r < i <= from ==> !StartsAt(s, p, i)
  {
    if from == -1 then -1
    else if StartsAt(s, p, from) then from
    else LastIndexOfFrom(s, p, from - 1)
  }

  function LastIndexOf(s: string, p: string): int {
    LastIndexOfFrom(s, p, |s|)
  }

  function ClampTo(i: int, n: nat): (r: nat)
    ensures r <= n
  {
    if i < 0 then 0 else if i > n then n else i
  }

  /** Both ends are clamped to the string and swapped when out of order. */
  function Substring(s: string, a: int, b: int): string {
    var x, y := ClampTo(a, |s|), ClampTo(b, |s|);
    if x <= y then s[x..y] else s[y..x]
  }

  function ReplaceAll(s: string, p: string, r: string): string
    requires |p| > 0
  {
    if |s| < |p| then s
    else if s[..|p|] == p then r + ReplaceAll(s[|p|..], p, r)
    else [s[0]] + ReplaceAll(s[1..], p, r)
  }

  function LowerChar(c: char): char {
    if 'A' <= c <= 'Z' then (c as int + 32) as char else c
  }

  function ToLower(s: string): string {
    seq(|s|, i requires 0 <= i < |s| => LowerChar(s[i]))
  }

  predicate Blank(c: char) {
    c == ' ' || c == '\t' || c == '\n' || c == '\r'
  }

  function Trim(s: string): string {
    if s == [] then s
    else if Blank(s[0]) then Trim(s[1..])
    else if Blank(s[|s| - 1]) then Trim(s[..|s| - 1])
    else s
  }

  // ---- encoder and decoder ----

  function Encode(id: string): string {
    PAYMENT_MARK + ReplaceAll(Trim(id), "-", PAYMENT_SEPARATOR) + PAYMENT_MARK
  }

  function Extract(content: string): string {
    var startIndex := IndexOf(content, PAYMENT_MARK);
    var lastIndex := LastIndexOf(content, PAYMENT_MARK);
    Substring(content, startIndex + |PAYMENT_MARK|, lastIndex)
  }

  function Decode(content: string): string {
    ToLower(ReplaceAll(Extract(content), PAYMENT_SEPARATOR, "-"))
  }

  // ---- what the bank may do to the memo ----

  predicate HexLetter(c: char) { 'a' <= c <= 'f' }

  predicate IdChar(c: char) { '0' <= c <= '9' || HexLetter(c) || c == '-' }

  /** Text of a UUID: lower-case hexadecimal digits and dashes. */
  predicate IdText(id: string) {
    forall i :: 0 <= i < |id| ==> IdChar(id[i])
  }

  /** The bank may turn any of the hexadecimal letters into capitals. */
  predicate SameUpToCase(sent: string, received: string) {
    |sent| == |received|
    && forall i :: 0 <= i < |sent| ==>
         received[i] == sent[i] || (HexLetter(sent[i]) && LowerChar(received[i]) == sent[i])
  }

  lemma {:induction false} TrimId(id: string)
    requires IdText(id)
    ensures Trim(id) == id
  {
    if id == [] {
    } else {
      assert IdChar(id[0]) && IdChar(id[|id| - 1]);
    }
  }

  function Body(id: string): string {
    ReplaceAll(id, "-", PAYMENT_SEPARATOR)
  }

  lemma BodyStep(id: string)
    requires id != []
    ensures Body(id) == (if id[0] == '-' then PAYMENT_SEPARATOR else [id[0]]) + Body(id[1..])
  {
    assert id[..1] == [id[0]];
  }

  lemma ToLowerConcat(a: string, b: string)
    ensures ToLower(a + b) == ToLower(a) + ToLower(b)
  {
  }

  /** Undoing the separators of a body, in any letter case, gives back the id. */
  lemma {:induction false} BodyRoundTrip(id: string, body: string)
    requires IdText(id) && SameUpToCase(Body(id), body)
    ensures ToLower(ReplaceAll(body, PAYMENT_SEPARATOR, "-")) == id
  {
    if id == [] {
      assert body == [];
    } else {
      BodyStep(id);
      var rest := Body(id[1..]);
      assert IdChar(id[0]);
      assert IdText(id[1..]) by {
        forall i | 0 <= i < |id[1..]| ensures IdChar(id[1..][i]) { assert IdChar(id[i + 1]); }
      }
      var n := if id[0] == '-' then 3 else 1;
      assert SameUpToCase(rest, body[n..]) by {
        forall i | 0 <= i < |rest|
          ensures body[n..][i] == rest[i] || (HexLetter(rest[i]) && LowerChar(body[n..][i]) == rest[i])
        {
          assert rest[i] == Body(id)[n + i] && body[n..][i] == body[n + i];
        }
      }
      BodyRoundTrip(id[1..], body[n..]);
      var tail := ReplaceAll(body[n..], PAYMENT_SEPARATOR, "-");
      if id[0] == '-' {
        assert Body(id)[0] == 'L' && Body(id)[1] == 'X' && Body(id)[2] == 'P';
        assert body[..3] == PAYMENT_SEPARATOR;
        assert ReplaceAll(body, PAYMENT_SEPARATOR, "-") == "-" + tail;
        ToLowerConcat("-", tail);
      } else {
        assert Body(id)[0] == id[0];
        assert body[0] != 'L';
        if |body| >= 3 {
          assert body[..3][0] == body[0];
          assert ReplaceAll(body, PAYMENT_SEPARATOR, "-") == [body[0]] + tail;
        } else {
          assert ReplaceAll(body, PAYMENT_SEPARATOR, "-") == [body[0]] + tail;
        }
        ToLowerConcat([body[0]], tail);
      }
      assert id == [id[0]] + id[1..];
    }
  }

  /** The received text around one payment. */
  function Content(prefix: string, body: string, suffix: string): string {
    prefix + PAYMENT_MARK + body + PAYMENT_MARK + suffix
  }

  predicate MarkAt(s: string, i: int) {
    0 <= i && i + 3 <= |s| && s[i] == 'P' && s[i + 1] == 'X' && s[i + 2] == 'L'
  }

  lemma MarkLetters(s: string, i: int)
    ensures StartsAt(s, PAYMENT_MARK, i) <==> MarkAt(s, i)
  {
    if 0 <= i && i + 3 <= |s| {
      var t := s[i..i + 3];
      assert t[0] == s[i] && t[1] == s[i + 1] && t[2] == s[i + 2];
      if MarkAt(s, i) {
        assert t == PAYMENT_MARK;
      }
    }
  }

  lemma ContainsMark(s: string)
    ensures Contains(s, PAYMENT_MARK) <==> exists i :: MarkAt(s, i)
  {
    forall i ensures StartsAt(s, PAYMENT_MARK, i) <==> MarkAt(s, i) { MarkLetters(s, i); }
    if i :| MarkAt(s, i) {
      assert 0 <= i <= |s| && StartsAt(s, PAYMENT_MARK, i);
    }
  }

  lemma ContentAt(prefix: string, body: string, suffix: string)
    ensures var c := Content(prefix, body, suffix);
      && |c| == |prefix| + |body| + |suffix| + 6
      && MarkAt(c, |prefix|)
      && MarkAt(c, |prefix| + 3 + |body|)
      && (forall i :: 0 <= i < |prefix| ==> c[i] == prefix[i])
      && (forall i :: |prefix| + |body| + 6 <= i < |c| ==> c[i] == suffix[i - (|prefix| + |body| + 6)])
  {
  }

  lemma BodyAt(prefix: string, body: string, suffix: string)
    ensures Content(prefix, body, suffix)[|prefix| + 3..|prefix| + 3 + |body|] == body
  {
  }

  /** The mark does not overlap itself, so noise free of marks forms none with the real ones. */
  lemma FirstMark(prefix: string, body: string, suffix: string)
    requires !Contains(prefix, PAYMENT_MARK)
    ensures IndexOf(Content(prefix, body, suffix), PAYMENT_MARK) == |prefix|
  {
    var c := Content(prefix, body, suffix);
    ContentAt(prefix, body, suffix);
    MarkLetters(c, |prefix|);
    ContainsMark(prefix);
    var r := IndexOf(c, PAYMENT_MARK);
    MarkLetters(c, r);
    assert MarkAt(c, r) && r + 3 <= |prefix| ==> MarkAt(prefix, r);
  }

  lemma LastMark(prefix: string, body: string, suffix: string)
    requires !Contains(suffix, PAYMENT_MARK)
    ensures LastIndexOf(Content(prefix, body, suffix), PAYMENT_MARK) == |prefix| + 3 + |body|
  {
    var c := Content(prefix, body, suffix);
    var last := |prefix| + 3 + |body|;
    ContentAt(prefix, body, suffix);
    MarkLetters(c, last);
    ContainsMark(suffix);
    var r := LastIndexOf(c, PAYMENT_MARK);
    MarkLetters(c, r);
    assert MarkAt(c, r) && last + 3 <= r ==> MarkAt(suffix, r - (last + 3));
  }

  /** An X before an L is never part of a separator. */
  lemma {:induction false} StrayMarkSurvives(s: string, i: nat)
    requires i + 1 < |s| && s[i] == 'X' && s[i + 1] == 'L'
    ensures 'X' in ReplaceAll(s, PAYMENT_SEPARATOR, "-")
  {
    if |s| >= 3 && s[..3] == PAYMENT_SEPARATOR {
      assert s[0] == s[..3][0] && s[1] == s[..3][1] && s[2] == s[..3][2];
      StrayMarkSurvives(s[3..], i - 3);
    } else if |s| >= 3 && i > 0 {
      StrayMarkSurvives(s[1..], i - 1);
    }
  }

  /** Text that still holds a mark never decodes to an id. */
  lemma MarkInsideSpoils(content: string, i: nat, id: string)
    requires IdText(id) && MarkAt(Extract(content), i)
    ensures Decode(content) != id
  {
    StrayMarkSurvives(Extract(content), i + 1);
    var r := ReplaceAll(Extract(content), PAYMENT_SEPARATOR, "-");
    var k :| 0 <= k < |r| && r[k] == 'X';
    assert ToLower(r)[k] == 'x' && !IdChar('x');
  }

  /** Where the first and the last mark lie once the noise holds a mark of its own. */
  lemma NoisyMarks(prefix: string, body: string, suffix: string, first: int, last: int)
    requires first == IndexOf(Content(prefix, body, suffix), PAYMENT_MARK)
    requires last == LastIndexOf(Content(prefix, body, suffix), PAYMENT_MARK)
    ensures 0 <= first <= |prefix| && |prefix| + 3 + |body| <= last
    ensures last + 3 <= |Content(prefix, body, suffix)|
    ensures Contains(prefix, PAYMENT_MARK) ==> first + 3 <= |prefix|
    ensures Contains(suffix, PAYMENT_MARK) ==> |prefix| + 6 + |body| <= last
  {
    var c := Content(prefix, body, suffix);
    ContentAt(prefix, body, suffix);
    MarkLetters(c, |prefix|);
    MarkLetters(c, |prefix| + 3 + |body|);
    if Contains(prefix, PAYMENT_MARK) {
      ContainsMark(prefix);
      var i :| MarkAt(prefix, i);
      MarkLetters(c, i);
      assert MarkAt(c, i);
    }
    if Contains(suffix, PAYMENT_MARK) {
      ContainsMark(suffix);
      var i :| MarkAt(suffix, i);
      var k := |prefix| + 6 + |body| + i;
      MarkLetters(c, k);
      assert MarkAt(c, k);
    }
  }

  lemma MarkedNoiseSpoils(id: string, prefix: string, body: string, suffix: string)
    requires IdText(id) && (Contains(prefix, PAYMENT_MARK) || Contains(suffix, PAYMENT_MARK))
    ensures Decode(Content(prefix, body, suffix)) != id
  {
    var c := Content(prefix, body, suffix);
    var first, last := IndexOf(c, PAYMENT_MARK), LastIndexOf(c, PAYMENT_MARK);
    ContentAt(prefix, body, suffix);
    NoisyMarks(prefix, body, suffix, first, last);
    var from := first + 3;
    assert Extract(c) == c[from..last];
    var mark := if Contains(prefix, PAYMENT_MARK) then |prefix| else |prefix| + 3 + |body|;
    SliceMark(c, from, last, mark);
    MarkInsideSpoils(c, mark - from, id);
  }

  lemma SliceMark(c: string, from: int, to: int, i: int)
    requires 0 <= from <= i && i + 3 <= to <= |c| && MarkAt(c, i)
    ensures MarkAt(c[from..to], i - from)
  {
  }

  /** A payment decodes back to its transaction if and only if the bank's noise around the memo
      holds no payment mark, whatever hexadecimal letters the bank capitalises. */
  lemma MemoRoundTrip(id: string, received: string, prefix: string, suffix: string)
    requires IdText(id) && SameUpToCase(Encode(id), received)
    ensures Decode(prefix + received + suffix) == id
       <==> !Contains(prefix, PAYMENT_MARK) && !Contains(suffix, PAYMENT_MARK)
  {
    TrimId(id);
    var n := |Body(id)|;
    var body := received[3..3 + n];
    MemoParts(id, received);
    var c := Content(prefix, body, suffix);
    assert prefix + received + suffix == c;
    if Contains(prefix, PAYMENT_MARK) || Contains(suffix, PAYMENT_MARK) {
      MarkedNoiseSpoils(id, prefix, body, suffix);
    } else {
      FirstMark(prefix, body, suffix);
      LastMark(prefix, body, suffix);
      BodyAt(prefix, body, suffix);
      assert Extract(c) == body;
      BodyRoundTrip(id, body);
    }
  }

  lemma MemoParts(id: string, received: string)
    requires IdText(id) && Trim(id) == id && SameUpToCase(Encode(id), received)
    ensures |received| == |Body(id)| + 6
    ensures received == PAYMENT_MARK + received[3..3 + |Body(id)|] + PAYMENT_MARK
    ensures SameUpToCase(Body(id), received[3..3 + |Body(id)|])
  {
    var sent, n := Encode(id), |Body(id)|;
    assert sent[0] == 'P' && sent[1] == 'X' && sent[2] == 'L';
    assert sent[n + 3] == 'P' && sent[n + 4] == 'X' && sent[n + 5] == 'L';
    forall i | 0 <= i < n
      ensures received[3..3 + n][i] == Body(id)[i]
              || (HexLetter(Body(id)[i]) && LowerChar(received[3..3 + n][i]) == Body(id)[i])
    {
      assert sent[3 + i] == Body(id)[i];
    }
  }

  /** A memo without a mark yields at most two characters, so it names no transaction. */
  lemma UnmarkedMemoNamesNothing(content: string)
    requires !Contains(content, PAYMENT_MARK)
    ensures |Decode(content)| <= 2
  {
    var first, last := IndexOf(content, PAYMENT_MARK), LastIndexOf(content, PAYMENT_MARK);
    assert first == -1 && last == -1;
  }
}
