/**
  The quote- and parenthesis-aware splitter of map projections: `splitProjectionFields` in
  packages/shared/src/safe-expression.ts. The scanner of the loop is a small automaton; a cut is a
  comma that it meets at depth 0 outside quotes. The depth may go below zero on unbalanced text,
  and a backslash counts only inside quotes, exactly as in the loop. What the cuts are good for is
  stated without the automaton: as the one splitting of a text, and for balanced expressions.
 */
module FieldSplitter {
  import opened Options
  import opened Text

  /** What the scanner remembers; `skip` says that a backslash inside quotes hides the next character. */
  datatype Mode = Mode(depth: int, quote: Option<char>, skip: bool)

  const NEUTRAL: Mode := Mode(0, None, false)

  function Next(m: Mode, c: char): Mode {
    if m.skip then m.(skip := false)
    else if m.quote.Some? then
      if c == '\\' then m.(skip := true) else if c == m.quote.value then m.(quote := None) else m
    else if c == '\'' || c == '"' then m.(quote := Some(c))
    else if c == '(' then m.(depth := m.depth + 1)
    else if c == ')' then m.(depth := m.depth - 1)
    else m
  }

  function Scan(m: Mode, s: string): Mode {
    if s == "" then m else Next(Scan(m, s[..|s| - 1]), s[|s| - 1])
  }

  lemma {:induction false} ScanConcat(m: Mode, u: string, v: string)
    ensures Scan(m, u + v) == Scan(Scan(m, u), v)
  {
    if v == "" {
      assert u + v == u;
    } else {
      var n := |v| - 1;
      assert (u + v)[..|u + v| - 1] == u + v[..n];
      ScanConcat(m, u, v[..n]);
    }
  }

  /** A cut point: a comma at depth 0 and outside quotes. */
  predicate IsCut(body: string, i: nat) {
    i < |body| && body[i] == ',' && Scan(NEUTRAL, body[..i]) == NEUTRAL
  }

  ghost predicate NoCut(s: string) {
    forall i: nat :: !IsCut(s, i)
  }

  /** A field that leaves the scanner as it found it and holds no cut. */
  ghost predicate Whole(s: string) {
    Scan(NEUTRAL, s) == NEUTRAL && NoCut(s)
  }

  /** After whole text the scanner starts afresh. */
  lemma CutAfter(u: string, v: string, i: nat)
    requires Scan(NEUTRAL, u) == NEUTRAL
    ensures IsCut(u + v, |u| + i) <==> IsCut(v, i)
  {
    if i < |v| {
      assert (u + v)[..|u| + i] == u + v[..i];
      ScanConcat(NEUTRAL, u, v[..i]);
    }
  }

  lemma CutBefore(u: string, v: string, i: nat)
    requires i < |u|
    ensures IsCut(u + v, i) <==> IsCut(u, i)
  {
    assert (u + v)[..i] == u[..i];
  }

  // ----- the pieces -----

  /** Where the piece containing position `i` starts: just after the last cut before `i`. */
  function Start(body: string, i: nat): (r: nat)
    ensures r <= i
  {
    if i == 0 then 0 else if IsCut(body, i - 1) then i else Start(body, i - 1)
  }

  /** The pieces that end before position `i`. */
  function Ended(body: string, i: nat): seq<string>
    requires i <= |body|
  {
    if i == 0 then []
    else Ended(body, i - 1) + if IsCut(body, i - 1) then [body[Start(body, i - 1)..i - 1]] else []
  }

  function Pieces(body: string): seq<string> {
    Ended(body, |body|) + [body[Start(body, |body|)..]]
  }

  function Clean(pieces: seq<string>): seq<string> {
    if pieces == [] then []
    else
      var n := |pieces| - 1;
      var field := Trim(pieces[n]);
      Clean(pieces[..n]) + if field == "" then [] else [field]
  }

  /** The fields of a projection body: its pieces, trimmed, without the empty ones. */
  function Fields(body: string): seq<string> {
    Clean(Pieces(body))
  }

  lemma {:induction false} CleanConcat(a: seq<string>, b: seq<string>)
    ensures Clean(a + b) == Clean(a) + Clean(b)
  {
    hide Trim;
    if b == [] {
      assert a + b == a;
    } else {
      var n := |b| - 1;
      assert (a + b)[..|a + b| - 1] == a + b[..n];
      assert (a + b)[|a + b| - 1] == b[n];
      CleanConcat(a, b[..n]);
    }
  }

  lemma CleanOne(piece: string)
    ensures Clean([piece]) == if Trim(piece) == "" then [] else [Trim(piece)]
  {
    assert [piece][..0] == [];
  }

  lemma EndedNext(body: string, i: nat)
    requires i < |body|
    ensures IsCut(body, i) ==>
      Clean(Ended(body, i + 1)) == Clean(Ended(body, i)) + Clean([body[Start(body, i)..i]]) && Start(body, i + 1) == i + 1
    ensures !IsCut(body, i) ==> Ended(body, i + 1) == Ended(body, i) && Start(body, i + 1) == Start(body, i)
  {
    if IsCut(body, i) {
      CleanConcat(Ended(body, i), [body[Start(body, i)..i]]);
    }
  }

  /** The scanner's state before position `i`, unless the loop has just run past the end. */
  ghost predicate Scanned(body: string, i: nat, start: nat, m: Mode, fields: seq<string>) {
    var k := if i < |body| then i else |body|;
    && i <= |body| + 1 && start == Start(body, k) && !m.skip
    && fields == Clean(Ended(body, k))
    && (i <= |body| ==> Scan(NEUTRAL, body[..i]) == m)
  }

  lemma ScanOne(body: string, i: nat)
    requires i < |body|
    ensures Scan(NEUTRAL, body[..i + 1]) == Next(Scan(NEUTRAL, body[..i]), body[i])
  {
    assert body[..i + 1][..i] == body[..i];
  }

  /** One round that consumes one character. */
  lemma ScanStep(body: string, i: nat, start: nat, m: Mode, fields: seq<string>)
    requires i < |body| && Scanned(body, i, start, m, fields)
    ensures body[i] == ',' && m == NEUTRAL ==>
      Scanned(body, i + 1, i + 1, m, fields + Clean([body[start..i]]))
    ensures !(body[i] == ',' && m == NEUTRAL) && !Next(m, body[i]).skip ==>
      Scanned(body, i + 1, start, Next(m, body[i]), fields)
  {
    hide Clean, Ended, Start, Scan;
    ScanOne(body, i);
    EndedNext(body, i);
  }

  /** A backslash inside quotes: two characters, neither of them a cut. */
  lemma SkipStep(body: string, i: nat, start: nat, m: Mode, fields: seq<string>)
    requires i < |body| && Scanned(body, i, start, m, fields)
    requires m.quote.Some? && body[i] == '\\'
    ensures Scanned(body, i + 2, start, m, fields)
  {
    hide Clean, Ended, Start, Scan;
    ScanOne(body, i);
    EndedNext(body, i);
    if i + 1 < |body| {
      ScanOne(body, i + 1);
      EndedNext(body, i + 1);
    }
  }

  method SplitProjectionFields(body: string) returns (fields: seq<string>)
    ensures fields == Fields(body)
  {
    hide Scan, Clean, Ended, Start, Trim;
    fields := [];
    var start: nat, depth, i: nat := 0, 0, 0;
    var quote: Option<char> := None;
    StartScan(body);
    while i < |body|
      invariant Scanned(body, i, start, Mode(depth, quote, false), fields)
      invariant start <= |body| && start <= i
      decreases |body| + 1 - i
    {
      ghost var m := Mode(depth, quote, false);
      NextStart(body, i, start, m, fields);
      ScanStep(body, i, start, m, fields);
      var c := body[i];
      if quote.Some? {
        if c == '\\' {
          SkipStep(body, i, start, m, fields);
          i := i + 1;
        } else if c == quote.value {
          quote := None;
        }
      } else if c == '\'' || c == '"' {
        quote := Some(c);
      } else if c == '(' {
        depth := depth + 1;
      } else if c == ')' {
        depth := depth - 1;
      } else if c == ',' && depth == 0 {
        var field := Trim(body[start..i]);
        CleanOne(body[start..i]);
        fields := fields + (if field == "" then [] else [field]);
        start := i + 1;
      }
      i := i + 1;
    }
    LastPiece(body, i, start, Mode(depth, quote, false), fields);
    var last := Trim(body[start..]);
    if last != "" {
      fields := fields + [last];
    }
  }

  lemma StartScan(body: string)
    ensures Scanned(body, 0, 0, NEUTRAL, [])
  {
    assert body[..0] == "";
  }

  lemma NextStart(body: string, i: nat, start: nat, m: Mode, fields: seq<string>)
    requires i < |body| && Scanned(body, i, start, m, fields)
    ensures start <= i
  {
  }

  lemma FieldsAtEnd(body: string)
    ensures var done, last := Clean(Ended(body, |body|)), Trim(body[Start(body, |body|)..]);
            Fields(body) == if last == "" then done else done + [last]
  {
    var last := body[Start(body, |body|)..];
    CleanConcat(Ended(body, |body|), [last]);
    CleanOne(last);
  }

  lemma LastPiece(body: string, i: nat, start: nat, m: Mode, fields: seq<string>)
    requires i >= |body| && Scanned(body, i, start, m, fields)
    ensures start <= |body|
    ensures Fields(body) == if Trim(body[start..]) == "" then fields else fields + [Trim(body[start..])]
  {
    FieldsAtEnd(body);
  }

  // ----- what the pieces are -----

  lemma {:induction false} StartIsUncut(body: string, i: nat, k: nat)
    requires Start(body, i) <= k < i
    ensures !IsCut(body, k)
  {
    if k < i - 1 {
      StartIsUncut(body, i - 1, k);
    }
  }

  lemma {:induction false} StartIsFresh(body: string, i: nat)
    requires i <= |body|
    ensures Scan(NEUTRAL, body[..Start(body, i)]) == NEUTRAL
  {
    if i > 0 {
      if IsCut(body, i - 1) {
        assert body[..i][..i - 1] == body[..i - 1];
      } else {
        StartIsFresh(body, i - 1);
      }
    }
  }

  /** A cut of a slice that starts afresh is a cut of the text. */
  lemma SliceCut(body: string, i: nat, j: nat, k: nat)
    requires i <= j <= |body| && Scan(NEUTRAL, body[..i]) == NEUTRAL
    ensures IsCut(body[i..j], k) <==> k < j - i && IsCut(body, i + k)
  {
    if k < j - i {
      CutAfter(body[..i], body[i..j], k);
      assert body[..i] + body[i..j] == body[..j];
      CutBefore(body[..j], body[j..], i + k);
      assert body[..j] + body[j..] == body;
    }
  }

  /** The text from the last cut up to `i` holds no cut. */
  lemma TailNoCut(body: string, i: nat)
    requires i <= |body|
    ensures NoCut(body[Start(body, i)..i])
  {
    var s := Start(body, i);
    StartIsFresh(body, i);
    forall k: nat ensures !IsCut(body[s..i], k) {
      SliceCut(body, s, i, k);
      if k < i - s {
        StartIsUncut(body, i, s + k);
      }
    }
  }

  lemma TailWhole(body: string, i: nat)
    requires IsCut(body, i)
    ensures Whole(body[Start(body, i)..i])
  {
    var s := Start(body, i);
    TailNoCut(body, i);
    StartIsFresh(body, i);
    ScanConcat(NEUTRAL, body[..s], body[s..i]);
    assert body[..s] + body[s..i] == body[..i];
  }

  ghost predicate AllWhole(pieces: seq<string>) {
    forall p :: p in pieces ==> Whole(p)
  }

  lemma {:induction false} EndedAreWhole(body: string, i: nat)
    requires i <= |body|
    ensures AllWhole(Ended(body, i))
  {
    if i > 0 {
      EndedAreWhole(body, i - 1);
      if IsCut(body, i - 1) {
        TailWhole(body, i - 1);
      }
    }
  }

  lemma JoinLonger(before: seq<string>, tail: string, c: char)
    ensures Join(before + [tail + [c]], ',') == Join(before + [tail], ',') + [c]
  {
    JoinAppend(before, tail, ',');
    JoinAppend(before, tail + [c], ',');
    hide Join;
    if before != [] {
      assert Join(before, ',') + [','] + (tail + [c]) == (Join(before, ',') + [','] + tail) + [c];
    }
  }

  lemma JoinNewPiece(before: seq<string>)
    requires before != []
    ensures Join(before + [""], ',') == Join(before, ',') + [',']
  {
    JoinAppend(before, "", ',');
  }

  /** Joined up again, the pieces are the text. */
  lemma {:induction false} EndedJoined(body: string, i: nat)
    requires i <= |body|
    ensures Join(Ended(body, i) + [body[Start(body, i)..i]], ',') == body[..i]
    decreases i
  {
    if i > 0 {
      hide Join;
      EndedJoined(body, i - 1);
      var before, tail := Ended(body, i - 1), body[Start(body, i - 1)..i - 1];
      assert body[..i] == body[..i - 1] + [body[i - 1]];
      if IsCut(body, i - 1) {
        assert body[Start(body, i)..i] == "";
        JoinNewPiece(before + [tail]);
      } else {
        assert body[Start(body, i)..i] == tail + [body[i - 1]];
        assert Ended(body, i) == before;
        JoinLonger(before, tail, body[i - 1]);
      }
    }
  }

  /** Pieces that a comma join can be split into again: all whole, the last at least without a cut. */
  ghost predicate Splitting(pieces: seq<string>) {
    pieces != [] && AllWhole(pieces[..|pieces| - 1]) && NoCut(pieces[|pieces| - 1])
  }

  lemma CommaIsNeutral(u: string)
    requires Scan(NEUTRAL, u) == NEUTRAL
    ensures Scan(NEUTRAL, u + [',']) == NEUTRAL && IsCut(u + [','], |u|)
  {
    assert (u + [','])[..|u|] == u;
  }

  lemma {:induction false} JoinedIsNeutral(pieces: seq<string>)
    requires pieces != [] && AllWhole(pieces)
    ensures Scan(NEUTRAL, Join(pieces, ',')) == NEUTRAL
  {
    assert pieces[0] in pieces;
    if |pieces| > 1 {
      var rest := Join(pieces[1..], ',');
      JoinedIsNeutral(pieces[1..]);
      CommaIsNeutral(pieces[0]);
      ScanConcat(NEUTRAL, pieces[0] + [','], rest);
    }
  }

  lemma {:induction false} NothingEnds(body: string, s: nat, i: nat)
    requires s <= i <= |body| && forall k :: s <= k < i ==> !IsCut(body, k)
    ensures Ended(body, i) == Ended(body, s) && Start(body, i) == Start(body, s)
  {
    if s < i {
      NothingEnds(body, s, i - 1);
    }
  }

  lemma {:induction false} EndedPrefix(u: string, v: string, i: nat)
    requires i <= |u|
    ensures Ended(u + v, i) == Ended(u, i) && Start(u + v, i) == Start(u, i)
  {
    if i > 0 {
      EndedPrefix(u, v, i - 1);
      CutBefore(u, v, i - 1);
      assert (u + v)[Start(u, i - 1)..i - 1] == u[Start(u, i - 1)..i - 1];
    }
  }

  lemma PiecesComma(u: string)
    requires Scan(NEUTRAL, u) == NEUTRAL
    ensures var comma := u + [','];
            Ended(comma, |comma|) == Pieces(u) && Start(comma, |comma|) == |comma|
  {
    var comma := u + [','];
    CommaIsNeutral(u);
    EndedPrefix(u, [','], |u|);
    assert comma[Start(u, |u|)..|u|] == u[Start(u, |u|)..];
  }

  lemma NothingMoreEnds(u: string, last: string)
    requires Scan(NEUTRAL, u) == NEUTRAL && NoCut(last)
    ensures var body := u + last;
            Ended(body, |body|) == Ended(u, |u|) && Start(body, |body|) == Start(u, |u|)
  {
    var body := u + last;
    hide Scan;
    EndedPrefix(u, last, |u|);
    forall k | |u| <= k < |body| ensures !IsCut(body, k) {
      CutAfter(u, last, k - |u|);
    }
    hide IsCut;
    NothingEnds(body, |u|, |body|);
  }

  /** One more piece without a cut, after whole text. */
  lemma PiecesAppend(u: string, last: string)
    requires Scan(NEUTRAL, u) == NEUTRAL && NoCut(last)
    ensures Pieces(u + [','] + last) == Pieces(u) + [last]
  {
    hide Scan, IsCut, NoCut, Ended, Start;
    var comma := u + [','];
    CommaIsNeutral(u);
    PiecesComma(u);
    NothingMoreEnds(comma, last);
    assert (comma + last)[|comma|..] == last;
  }

  lemma PiecesSingle(last: string)
    requires NoCut(last)
    ensures Pieces(last) == [last]
  {
    NothingEnds(last, 0, |last|);
    assert last[0..] == last;
  }

  lemma {:induction false} PiecesOfJoin(pieces: seq<string>)
    requires Splitting(pieces)
    ensures Pieces(Join(pieces, ',')) == pieces
    decreases |pieces|
  {
    var n := |pieces| - 1;
    var before, last := pieces[..n], pieces[n];
    assert pieces == before + [last];
    if n == 0 {
      PiecesSingle(last);
    } else {
      assert before[n - 1] in before;
      assert AllWhole(before[..n - 1]);
      PiecesOfJoin(before);
      JoinedIsNeutral(before);
      JoinAppend(before, last, ',');
      PiecesAppend(Join(before, ','), last);
    }
  }

  /**
    The pieces of any text are its one and only splitting: joined by commas they give the text
    back, every comma put back is at depth 0 outside quotes, and no piece holds another such comma.
   */
  lemma {:induction false} PiecesAreTheSplitting(body: string, pieces: seq<string>)
    ensures Splitting(pieces) && Join(pieces, ',') == body <==> pieces == Pieces(body)
  {
    if Splitting(pieces) && Join(pieces, ',') == body {
      PiecesOfJoin(pieces);
    }
    EndedAreWhole(body, |body|);
    TailNoCut(body, |body|);
    EndedJoined(body, |body|);
    assert body[..|body|] == body && body[Start(body, |body|)..|body|] == body[Start(body, |body|)..];
    var n := |Pieces(body)| - 1;
    assert Pieces(body)[..n] == Ended(body, |body|);
  }

  // ----- trimming -----

  lemma {:induction false} SpaceIsNeutral(pad: string)
    requires AllSpace(pad)
    ensures Scan(NEUTRAL, pad) == NEUTRAL
  {
    if pad != "" {
      SpaceIsNeutral(pad[..|pad| - 1]);
    }
  }

  lemma {:induction false} QuotesAreQuotes(s: string)
    ensures Scan(NEUTRAL, s).skip ==> Scan(NEUTRAL, s).quote.Some?
    ensures Scan(NEUTRAL, s).quote in {None, Some('\''), Some('"')}
  {
    if s != "" {
      QuotesAreQuotes(s[..|s| - 1]);
    }
  }

  lemma {:induction false} SpaceAtTheEnd(s: string, pad: string)
    requires AllSpace(pad) && Scan(NEUTRAL, s + pad) == NEUTRAL
    ensures Scan(NEUTRAL, s) == NEUTRAL
  {
    if pad == "" {
      assert s + pad == s;
    } else {
      var n := |pad| - 1;
      assert (s + pad)[..|s + pad| - 1] == s + pad[..n] && (s + pad)[|s + pad| - 1] == pad[n];
      QuotesAreQuotes(s + pad[..n]);
      SpaceAtTheEnd(s, pad[..n]);
    }
  }

  /** What trimming takes away. */
  lemma TrimParts(s: string) returns (left: string, right: string)
    ensures s == left + Trim(s) + right && AllSpace(left) && AllSpace(right)
  {
    hide TrimStart, TrimEnd, AllSpace;
    var t := TrimStart(s);
    left, right := s[..|s| - |t|], t[|TrimEnd(t)|..];
    assert t == TrimEnd(t) + right;
    assert s == left + t;
    assert left + (TrimEnd(t) + right) == left + TrimEnd(t) + right;
  }

  lemma TrimKeepsNoCut(s: string)
    requires NoCut(s)
    ensures NoCut(Trim(s))
  {
    hide Trim, Scan, IsCut;
    var left, right := TrimParts(s);
    var t := Trim(s);
    SpaceIsNeutral(left);
    forall i: nat ensures !IsCut(t, i) {
      if i < |t| {
        CutAfter(left, t, i);
        CutBefore(left + t, right, |left| + i);
      } else {
        PastTheEnd(t, i);
      }
    }
  }

  lemma PastTheEnd(s: string, i: nat)
    requires i >= |s|
    ensures !IsCut(s, i)
  {
  }

  /** Trimming leaves a whole field whole. */
  lemma TrimKeepsWhole(s: string)
    requires Whole(s)
    ensures Whole(Trim(s))
  {
    hide Trim, Scan, NoCut;
    TrimKeepsNoCut(s);
    var left, right := TrimParts(s);
    SpaceIsNeutral(left);
    SpaceAtTheEnd(left + Trim(s), right);
    ScanConcat(NEUTRAL, left, Trim(s));
  }

  // ----- round trips -----

  /** A field as the splitter hands it out. */
  ghost predicate IsField(s: string) {
    s != "" && Trimmed(s) && NoCut(s)
  }

  ghost predicate AreFields(fields: seq<string>) {
    && (forall f :: f in fields ==> IsField(f))
    && (fields != [] ==> AllWhole(fields[..|fields| - 1]))
  }

  lemma {:induction false} CleanFixed(fields: seq<string>)
    requires forall f :: f in fields ==> IsField(f)
    ensures Clean(fields) == fields
  {
    hide NoCut, Trim, Trimmed;
    if fields != [] {
      var n := |fields| - 1;
      CleanFixed(fields[..n]);
      assert fields[n] in fields;
      TrimFixed(fields[n]);
    }
  }

  lemma {:induction false} CleanAreWhole(pieces: seq<string>)
    requires AllWhole(pieces)
    ensures AllWhole(Clean(pieces)) && forall f :: f in Clean(pieces) ==> IsField(f)
  {
    hide Trim, NoCut, Trimmed;
    if pieces != [] {
      var n := |pieces| - 1;
      assert pieces[n] in pieces;
      CleanAreWhole(pieces[..n]);
      TrimKeepsWhole(pieces[n]);
      TrimIsTrimmed(pieces[n]);
    }
  }

  /** Whatever the text, the result is a list of fields. */
  lemma FieldsAreFields(body: string)
    ensures AreFields(Fields(body))
  {
    var done, last := Ended(body, |body|), body[Start(body, |body|)..];
    assert body[Start(body, |body|)..|body|] == last;
    FieldsAtEnd(body);
    hide Ended, Start, NoCut, Clean, Trim, Trimmed, Fields;
    EndedAreWhole(body, |body|);
    CleanAreWhole(done);
    TailNoCut(body, |body|);
    TrimKeepsNoCut(last);
    TrimIsTrimmed(last);
    FieldsAppend(Clean(done), Trim(last));
  }

  lemma FieldsAppend(fields: seq<string>, last: string)
    requires AllWhole(fields) && (forall f :: f in fields ==> IsField(f))
    requires Trimmed(last) && NoCut(last)
    ensures AreFields(fields) && (last != "" ==> AreFields(fields + [last]))
  {
    hide NoCut, Trimmed;
    assert (fields + [last])[..|fields|] == fields;
  }

  /** The splitter undoes joining, for every list of fields. */
  lemma SplitUndoesJoin(fields: seq<string>)
    requires AreFields(fields)
    ensures Fields(Join(fields, ',')) == fields
  {
    if fields == [] {
      PiecesSingle("");
      CleanOne("");
    } else {
      assert fields[|fields| - 1] in fields;
      PiecesOfJoin(fields);
      CleanFixed(fields);
    }
  }

  /** Joining the fields of any text at all and splitting again changes nothing. */
  lemma SplitAgain(body: string)
    ensures Fields(Join(Fields(body), ',')) == Fields(body)
  {
    FieldsAreFields(body);
    SplitUndoesJoin(Fields(body));
  }

  // ----- balanced expressions -----

  datatype Quotation = Closed | Plain(c: char, rest: Quotation) | Escaped(c: char, rest: Quotation)

  /** Expression text with closed quotes and balanced parentheses. */
  datatype Expr = End | Char(c: char, rest: Expr) | Quoted(q: char, text: Quotation, rest: Expr) | Group(inner: Expr, rest: Expr)

  function RenderQuotation(t: Quotation, q: char): string {
    match t
    case Closed => [q]
    case Plain(c, rest) => [c] + RenderQuotation(rest, q)
    case Escaped(c, rest) => ['\\', c] + RenderQuotation(rest, q)
  }

  function Render(e: Expr): string {
    match e
    case End => ""
    case Char(c, rest) => [c] + Render(rest)
    case Quoted(q, text, rest) => [q] + RenderQuotation(text, q) + Render(rest)
    case Group(inner, rest) => ['('] + Render(inner) + [')'] + Render(rest)
  }

  predicate QuotationOk(t: Quotation, q: char) {
    match t
    case Closed => true
    case Plain(c, rest) => c != q && c != '\\' && QuotationOk(rest, q)
    case Escaped(c, rest) => QuotationOk(rest, q)
  }

  /** Commas are free inside parentheses and quotes, and nowhere else. */
  predicate ExprOk(e: Expr, top: bool) {
    match e
    case End => true
    case Char(c, rest) => c !in ['\'', '"', '(', ')'] && (top ==> c != ',') && ExprOk(rest, top)
    case Quoted(q, text, rest) => (q == '\'' || q == '"') && QuotationOk(text, q) && ExprOk(rest, top)
    case Group(inner, rest) => ExprOk(inner, false) && ExprOk(rest, top)
  }

  /** A call with two arguments, one of them quoted, is one field in spite of its commas. */
  lemma CallIsAField()
    ensures var e := Char('f', Group(Char('a', Char(',', Quoted('\'', Plain('b', Plain(',', Escaped('\'', Closed))), End))), End));
            ExprOk(e, true) && Render(e) == "f(" + "a,'" + "b,\\'" + "')"
  {
    var quoted := Plain('b', Plain(',', Escaped('\'', Closed)));
    assert RenderQuotation(quoted, '\'') == "b,\\'" + "'";
    var inner := Char('a', Char(',', Quoted('\'', quoted, End)));
    assert Render(inner) == "a,'" + ("b,\\'" + "'");
  }

  /** From `m` the text leads to `after` without passing a cut. */
  ghost predicate Leads(m: Mode, s: string, after: Mode) {
    Scan(m, s) == after && forall i: nat :: i < |s| && s[i] == ',' ==> Scan(m, s[..i]) != NEUTRAL
  }

  lemma LeadsChar(m: Mode, c: char)
    requires c == ',' ==> m != NEUTRAL
    ensures Leads(m, [c], Next(m, c))
  {
    assert [c][..0] == "";
  }

  lemma LeadsOn(m: Mode, u: string, mid: Mode, v: string, after: Mode)
    requires Leads(m, u, mid) && Leads(mid, v, after)
    ensures Leads(m, u + v, after)
  {
    ScanConcat(m, u, v);
    forall i: nat | i < |u + v| && (u + v)[i] == ',' ensures Scan(m, (u + v)[..i]) != NEUTRAL {
      if i < |u| {
        assert (u + v)[..i] == u[..i];
      } else {
        assert (u + v)[..i] == u + v[..i - |u|];
        ScanConcat(m, u, v[..i - |u|]);
      }
    }
  }

  lemma {:induction false} QuotationLeads(d: int, t: Quotation, q: char)
    requires QuotationOk(t, q) && q != '\\' && q != ','
    ensures Leads(Mode(d, Some(q), false), RenderQuotation(t, q), Mode(d, None, false))
  {
    hide Leads, Scan;
    var inside, outside := Mode(d, Some(q), false), Mode(d, None, false);
    match t
    case Closed =>
      LeadsChar(inside, q);
    case Plain(c, rest) =>
      LeadsChar(inside, c);
      QuotationLeads(d, rest, q);
      LeadsOn(inside, [c], inside, RenderQuotation(rest, q), outside);
    case Escaped(c, rest) =>
      LeadsChar(inside, '\\');
      LeadsChar(Mode(d, Some(q), true), c);
      LeadsOn(inside, ['\\'], Mode(d, Some(q), true), [c], inside);
      assert ['\\'] + [c] == ['\\', c];
      QuotationLeads(d, rest, q);
      LeadsOn(inside, ['\\', c], inside, RenderQuotation(rest, q), outside);
  }

  lemma {:induction false} ExprLeads(d: nat, e: Expr)
    requires ExprOk(e, d == 0)
    ensures Leads(Mode(d, None, false), Render(e), Mode(d, None, false))
    decreases e
  {
    hide Leads, Scan;
    var m := Mode(d, None, false);
    match e
    case End =>
      LeadsNothing(m);
    case Char(c, rest) =>
      LeadsChar(m, c);
      ExprLeads(d, rest);
      LeadsOn(m, [c], m, Render(rest), m);
    case Quoted(q, text, rest) =>
      LeadsChar(m, q);
      QuotationLeads(d, text, q);
      LeadsOn(m, [q], Mode(d, Some(q), false), RenderQuotation(text, q), m);
      ExprLeads(d, rest);
      LeadsOn(m, [q] + RenderQuotation(text, q), m, Render(rest), m);
    case Group(inner, rest) =>
      var deeper := Mode(d + 1, None, false);
      LeadsChar(m, '(');
      ExprLeads(d + 1, inner);
      LeadsOn(m, ['('], deeper, Render(inner), deeper);
      LeadsChar(deeper, ')');
      LeadsOn(m, ['('] + Render(inner), deeper, [')'], m);
      ExprLeads(d, rest);
      LeadsOn(m, ['('] + Render(inner) + [')'], m, Render(rest), m);
  }

  lemma LeadsNothing(m: Mode)
    ensures Leads(m, "", m)
  {
  }

  /** Closed quotes, balanced parentheses and no comma outside them make a whole field. */
  lemma BalancedIsWhole(e: Expr)
    requires ExprOk(e, true)
    ensures Whole(Render(e))
  {
    ExprLeads(0, e);
  }

  /** So the splitter undoes joining for every list of trimmed, non-empty balanced fields. */
  lemma SplitBalanced(exprs: seq<Expr>, fields: seq<string>)
    requires |fields| == |exprs|
    requires forall i :: 0 <= i < |fields| ==>
      ExprOk(exprs[i], true) && fields[i] == Render(exprs[i]) && fields[i] != "" && Trimmed(fields[i])
    ensures Fields(Join(fields, ',')) == fields
  {
    forall f | f in fields ensures Whole(f) && IsField(f) {
      var i :| 0 <= i < |fields| && fields[i] == f;
      BalancedIsWhole(exprs[i]);
    }
    SplitUndoesJoin(fields);
  }
}
