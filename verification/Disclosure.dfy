/** The attested disclosure: four header statements and the whole canonical request, cut at character boundaries. */
module Disclosure {
  import opened Text
  import opened Wrappers
  import opened Seqs

  const PART := 480
  const MAX_STATEMENT := 512
  const MAX_STATEMENTS := 144
  const MAX_PARTS := 140

  datatype DisclosureError = TooLarge | Invalid

  // ---------------------------------------------------------------- display

  predicate Forbidden(c: char) {
    var x := c as int;
    || x <= 0x1F || 0x7F <= x <= 0x9F || x == 0x061C || 0x200E <= x <= 0x200F
    || 0x202A <= x <= 0x202E || 0x2066 <= x <= 0x2069
  }

  predicate Clear(s: string) { forall i | 0 <= i < |s| :: !Forbidden(s[i]) }

  predicate Displayable(s: string) { s != "" && Utf8Len(s) <= MAX_STATEMENT && Clear(s) }

  predicate AllDisplayable(ss: seq<string>) { forall i | 0 <= i < |ss| :: Displayable(ss[i]) }

  // ------------------------------------------------------------------ pieces

  /** How many whole characters fit in so many bytes. */
  function Fit(text: string, room: nat): (k: nat)
    ensures k <= |text|
  {
    if text == "" || Width(text[0]) > room then 0 else 1 + Fit(text[1..], room - Width(text[0]))
  }

  lemma {:induction false} FitIsGreatest(text: string, room: nat)
    ensures Utf8Len(text[..Fit(text, room)]) <= room
    ensures forall k | Fit(text, room) < k <= |text| :: Utf8Len(text[..k]) > room
    ensures Fit(text, room) < |text| ==> room < Utf8Len(text[..Fit(text, room)]) + 4
  {
    if text != "" && Width(text[0]) <= room {
      var rest := text[1..];
      FitIsGreatest(rest, room - Width(text[0]));
      forall k | 1 <= k <= |text|
        ensures Utf8Len(text[..k]) == Width(text[0]) + Utf8Len(rest[..k - 1])
      {
        assert text[..k][1..] == rest[..k - 1];
      }
    } else {
      forall k | 1 <= k <= |text|
        ensures Utf8Len(text[..k]) > room
      {
        assert text[..k][0] == text[0];
      }
    }
  }

  lemma {:induction false} Utf8LenConcat(a: string, b: string)
    ensures Utf8Len(a + b) == Utf8Len(a) + Utf8Len(b)
  {
    if a == "" {
      assert a + b == b;
    } else {
      assert (a + b)[1..] == a[1..] + b;
      Utf8LenConcat(a[1..], b);
    }
  }

  lemma Utf8LenSplit(text: string, k: nat)
    requires k <= |text|
    ensures Utf8Len(text) == Utf8Len(text[..k]) + Utf8Len(text[k..])
  {
    assert text == text[..k] + text[k..];
    Utf8LenConcat(text[..k], text[k..]);
  }

  /** The parts a text is cut into. */
  function Pieces(text: string): (r: seq<string>)
  {
    if text == "" then []
    else
      var k := Fit(text, PART);
      [text[..k]] + Pieces(text[k..])
  }

  function Concat(parts: seq<string>): string {
    if parts == [] then "" else parts[0] + Concat(parts[1..])
  }

  lemma {:induction false} PiecesConcat(text: string)
    ensures Concat(Pieces(text)) == text
  {
    if text != "" {
      var k := Fit(text, PART);
      PiecesConcat(text[k..]);
      DropHead([text[..k]], Pieces(text[k..]));
      DropTake(text, k);
    }
  }

  lemma DropTake<T>(s: seq<T>, k: nat)
    requires k <= |s|
    ensures s[..k] + s[k..] == s
  {
  }

  /** A part is nonempty and within the limit, and full up to one character unless it is the last. */
  predicate Full(parts: seq<string>) {
    parts == [] ||
    (parts[0] != "" && Utf8Len(parts[0]) <= PART && (|parts| > 1 ==> PART < Utf8Len(parts[0]) + 4) && Full(parts[1..]))
  }

  lemma {:induction false} PiecesFull(text: string)
    ensures Full(Pieces(text))
  {
    if text != "" {
      var k := Fit(text, PART);
      FitIsGreatest(text, PART);
      PiecesFull(text[k..]);
      DropHead([text[..k]], Pieces(text[k..]));
    }
  }

  lemma {:induction false} FullAt(parts: seq<string>, i: nat)
    requires Full(parts) && i < |parts|
    ensures parts[i] != "" && Utf8Len(parts[i]) <= PART
    ensures i + 1 < |parts| ==> PART < Utf8Len(parts[i]) + 4
  {
    if i > 0 {
      FullAt(parts[1..], i - 1);
    }
  }

  /** Nothing is lost, no part is empty, and every part but the last is full up to one character. */
  lemma PiecesAreTheText(text: string)
    ensures Concat(Pieces(text)) == text
    ensures forall i | 0 <= i < |Pieces(text)| :: Pieces(text)[i] != "" && Utf8Len(Pieces(text)[i]) <= PART
    ensures forall i | 0 <= i < |Pieces(text)| - 1 :: PART < Utf8Len(Pieces(text)[i]) + 4
  {
    PiecesConcat(text);
    PiecesFull(text);
    forall i | 0 <= i < |Pieces(text)|
      ensures Pieces(text)[i] != "" && Utf8Len(Pieces(text)[i]) <= PART
      ensures i + 1 < |Pieces(text)| ==> PART < Utf8Len(Pieces(text)[i]) + 4
    {
      FullAt(Pieces(text), i);
    }
  }

  lemma {:induction false} PieceCount(text: string)
    ensures 477 * |Pieces(text)| < Utf8Len(text) + 477
  {
    if text != "" {
      var k := Fit(text, PART);
      FitIsGreatest(text, PART);
      Utf8LenSplit(text, k);
      Utf8LenBounds(text);
      PieceCount(text[k..]);
      assert k == |text| ==> text[k..] == "";
    }
  }

  /** A request within its size limit never has too many parts. */
  lemma NeverTooManyParts(text: string)
    requires Utf8Len(text) <= 65_536
    ensures |Pieces(text)| <= 138
  {
    PieceCount(text);
  }

  // --------------------------------------------------------------- the cutter

  /** The character at a byte offset, when the offset is a character boundary. */
  function IndexAt(text: string, offset: nat): (r: Option<nat>)
    ensures r.Some? ==> r.value <= |text| && Utf8Len(text[..r.value]) == offset
    ensures r.None? ==> forall k | 0 <= k <= |text| :: Utf8Len(text[..k]) != offset
  {
    if offset == 0 then assert forall k | 1 <= k <= |text| :: text[..k] != ""; Some(0)
    else if text == "" then None
    else if offset < Width(text[0]) then
      assert forall k | 1 <= k <= |text| :: text[..k][0] == text[0];
      None
    else
      assert forall k | 1 <= k <= |text| :: text[..k][1..] == text[1..][..k - 1];
      var k :- IndexAt(text[1..], offset - Width(text[0]));
      Some(k + 1)
  }

  lemma {:induction false} LengthGrows(text: string, j: nat, k: nat)
    requires j < k <= |text|
    ensures Utf8Len(text[..j]) < Utf8Len(text[..k])
  {
    assert text[..k][..j] == text[..j];
    Utf8LenSplit(text[..k], j);
    Utf8LenBounds(text[..k][j..]);
  }

  /** Step back from the byte limit to the nearest boundary. */
  method Cut(text: string) returns (k: nat)
    requires text != ""
    ensures k == Fit(text, PART)
  {
    FitIsGreatest(text, PART);
    TakeAll(text);
    ghost var fit := Fit(text, PART);
    var end := if Utf8Len(text) < PART then Utf8Len(text) else PART;
    assert Utf8Len(text[..fit]) <= end by {
      if fit < |text| { LengthGrows(text, fit, |text|); }
    }
    var at := IndexAt(text, end);
    while at.None?
      invariant Utf8Len(text[..fit]) <= end <= PART && at == IndexAt(text, end)
      decreases end
    {
      end := end - 1;
      at := IndexAt(text, end);
    }
    k := at.value;
    if k < fit {
      LengthGrows(text, k, fit);
    }
  }

  // -------------------------------------------------------------- statements

  function Number(n: nat): (s: string)
    ensures s != "" && forall i | 0 <= i < |s| :: IsDigit(s[i])
  {
    if n < 10 then [HexDigit(n)] else Number(n / 10) + [HexDigit(n % 10)]
  }

  function Statement(index: nat, part: string): string { "Request part " + Number(index) + ": " + part }

  function PartStatements(parts: seq<string>): (r: seq<string>)
    ensures |r| == |parts|
  {
    seq(|parts|, i requires 0 <= i < |parts| => Statement(i + 1, parts[i]))
  }

  function Disclosed(headers: seq<string>, text: string): (r: Result<seq<string>, DisclosureError>)
  {
    if |Pieces(text)| > MAX_PARTS then Err(TooLarge)
    else
      var all := headers + PartStatements(Pieces(text));
      if all == [] || |all| > MAX_STATEMENTS || !AllDisplayable(all) then Err(Invalid) else Ok(all)
  }

  lemma PiecesNext(text: string)
    requires text != ""
    ensures Pieces(text) == [text[..Fit(text, PART)]] + Pieces(text[Fit(text, PART)..])
  {
  }

  lemma StatementsNext(parts: seq<string>, part: string)
    ensures PartStatements(parts + [part]) == PartStatements(parts) + [Statement(|parts| + 1, part)]
  {
  }

  method Disclose(headers: seq<string>, text: string) returns (r: Result<seq<string>, DisclosureError>)
    ensures r == Disclosed(headers, text)
  {
    var statements, rest, index := headers, text, 1;
    ghost var done: seq<string> := [];
    while rest != ""
      invariant |done| + 1 == index <= MAX_PARTS + 1 && done + Pieces(rest) == Pieces(text)
      invariant statements == headers + PartStatements(done)
      decreases |rest|
    {
      PiecesNext(rest);
      if index > MAX_PARTS { return Err(TooLarge); }
      var k := Cut(rest);
      StatementsNext(done, rest[..k]);
      Assoc(done, [rest[..k]], Pieces(rest[k..]));
      Assoc(headers, PartStatements(done), [Statement(index, rest[..k])]);
      done := done + [rest[..k]];
      statements := statements + [Statement(index, rest[..k])];
      rest := rest[k..];
      index := index + 1;
    }
    assert done == Pieces(text);
    if statements == [] || |statements| > MAX_STATEMENTS || !AllDisplayable(statements) { return Err(Invalid); }
    return Ok(statements);
  }

  // -------------------------------------------------- when disclosure succeeds

  lemma {:induction false} NumberIsShort(n: nat)
    ensures n < 10 ==> |Number(n)| == 1
    ensures n < 100 ==> |Number(n)| <= 2
    ensures n < 1000 ==> |Number(n)| <= 3
  {
    if n >= 10 {
      NumberIsShort(n / 10);
    }
  }

  lemma {:induction false} AsciiLength(s: string)
    requires forall i | 0 <= i < |s| :: s[i] as int < 0x80
    ensures Utf8Len(s) == |s|
  {
    if s != "" {
      AsciiLength(s[1..]);
    }
  }

  lemma StatementLength(index: nat, part: string)
    requires index < 1000
    ensures Utf8Len(Statement(index, part)) <= 18 + Utf8Len(part)
  {
    var prefix := "Request part " + Number(index) + ": ";
    NumberIsShort(index);
    AsciiLength(prefix);
    Utf8LenConcat(prefix, part);
  }

  lemma ClearConcat(a: string, b: string)
    ensures Clear(a + b) <==> Clear(a) && Clear(b)
  {
    if Clear(a + b) {
      assert forall i | 0 <= i < |a| :: a[i] == (a + b)[i];
      assert forall i | 0 <= i < |b| :: b[i] == (a + b)[|a| + i];
    }
  }

  lemma StatementClear(index: nat, part: string)
    ensures Clear(Statement(index, part)) <==> Clear(part)
  {
    var prefix := "Request part " + Number(index) + ": ";
    assert Clear(prefix);
    ClearConcat(prefix, part);
  }

  predicate AllClear(ss: seq<string>) { forall i | 0 <= i < |ss| :: Clear(ss[i]) }

  lemma {:induction false} ConcatClear(parts: seq<string>)
    ensures Clear(Concat(parts)) <==> AllClear(parts)
  {
    if parts != [] {
      ConcatClear(parts[1..]);
      ClearConcat(parts[0], Concat(parts[1..]));
      assert parts == [parts[0]] + parts[1..];
    }
  }

  lemma PartsDisplayable(parts: seq<string>)
    requires |parts| < 999 && forall i | 0 <= i < |parts| :: Utf8Len(parts[i]) <= PART
    ensures AllDisplayable(PartStatements(parts)) <==> AllClear(parts)
  {
    forall i | 0 <= i < |parts|
      ensures Displayable(PartStatements(parts)[i]) <==> Clear(parts[i])
    {
      StatementLength(i + 1, parts[i]);
      StatementClear(i + 1, parts[i]);
    }
  }

  lemma DisplayableConcat(a: seq<string>, b: seq<string>)
    ensures AllDisplayable(a + b) <==> AllDisplayable(a) && AllDisplayable(b)
  {
    if AllDisplayable(a + b) {
      assert forall i | 0 <= i < |a| :: a[i] == (a + b)[i];
      assert forall i | 0 <= i < |b| :: b[i] == (a + b)[|a| + i];
    }
  }

  /**
   A request within its size limit is disclosed exactly when its headers can be displayed and no character of
   it is forbidden; neither the part limit nor the statement limit is ever reached.
   */
  lemma DisclosedExactlyWhen(headers: seq<string>, text: string)
    requires |headers| == 4 && Utf8Len(text) <= 65_536
    ensures Disclosed(headers, text).Ok? <==> AllDisplayable(headers) && Clear(text)
    ensures Disclosed(headers, text) != Err(TooLarge)
    ensures Disclosed(headers, text).Ok? ==> |Disclosed(headers, text).value| <= 142
  {
    NeverTooManyParts(text);
    PiecesAreTheText(text);
    ConcatClear(Pieces(text));
    PartsDisplayable(Pieces(text));
    DisplayableConcat(headers, PartStatements(Pieces(text)));
  }
}
