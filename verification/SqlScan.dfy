// The scanner that collects the depth-zero words of a SQL text, and its specification: the
// text is a list of pieces, and a word is reported or not by what follows it.

module SqlText {
  // What Unicode says of the characters above 127; ASCII is spelled out below. `folds(c, l)`:
  // a case-insensitive pattern takes `c` for the ASCII letter `l`.
  datatype Charset = Charset(alnum: char -> bool, space: char -> bool, lower: char -> string,
      folds: (char, char) -> bool)

  predicate Ascii(c: char) { c as int < 128 }

  predicate IsWordChar(cs: Charset, c: char) {
    if Ascii(c) then '0' <= c <= '9' || 'A' <= c <= 'Z' || 'a' <= c <= 'z' || c == '_' else cs.alnum(c)
  }

  predicate IsSpace(cs: Charset, c: char) {
    if Ascii(c) then c == ' ' || 9 <= c as int <= 13 || 28 <= c as int <= 31 else cs.space(c)
  }

  function LowerChar(cs: Charset, c: char): string {
    if !Ascii(c) then cs.lower(c)
    else if 'A' <= c <= 'Z' then [(c as int + 32) as char]
    else [c]
  }

  function Lower(cs: Charset, w: string): string {
    if w == "" then "" else LowerChar(cs, w[0]) + Lower(cs, w[1..])
  }

  lemma InDigits(c: char)
    ensures '0' <= c <= '9' <==> c in "0123456789"
  {
    if '0' <= c <= '9' {
      assert "0123456789"[c as int - '0' as int] == c;
    }
  }

  lemma InUpper(c: char)
    ensures 'A' <= c <= 'Z' <==> c in "ABCDEFGHIJKLMNOPQRSTUVWXYZ"
  {
    if 'A' <= c <= 'Z' {
      assert "ABCDEFGHIJKLMNOPQRSTUVWXYZ"[c as int - 'A' as int] == c;
    }
  }

  lemma InLower(c: char)
    ensures 'a' <= c <= 'z' <==> c in "abcdefghijklmnopqrstuvwxyz"
  {
    if 'a' <= c <= 'z' {
      assert "abcdefghijklmnopqrstuvwxyz"[c as int - 'a' as int] == c;
    }
  }

  lemma LowerOfUpper(i: nat)
    requires i < 26
    ensures "ABCDEFGHIJKLMNOPQRSTUVWXYZ"[i] as int == 'A' as int + i
    ensures "abcdefghijklmnopqrstuvwxyz"[i] as int == 'a' as int + i
  {
  }

  // The ASCII characters by name: what makes a word, what is white space, and lower case.
  lemma AsciiTables(cs: Charset, c: char)
    requires c as int < 128
    ensures IsWordChar(cs, c) <==>
      c in "0123456789" || c == '_' || c in "ABCDEFGHIJKLMNOPQRSTUVWXYZ" || c in "abcdefghijklmnopqrstuvwxyz"
    ensures IsSpace(cs, c) <==> c in " \t\n\U{b}\U{c}\r\U{1c}\U{1d}\U{1e}\U{1f}"
    ensures c !in "ABCDEFGHIJKLMNOPQRSTUVWXYZ" ==> LowerChar(cs, c) == [c]
    ensures forall i :: 0 <= i < 26 && "ABCDEFGHIJKLMNOPQRSTUVWXYZ"[i] == c ==>
      LowerChar(cs, c) == ["abcdefghijklmnopqrstuvwxyz"[i]]
  {
    InDigits(c);
    InUpper(c);
    InLower(c);
    forall i | 0 <= i < 26 && "ABCDEFGHIJKLMNOPQRSTUVWXYZ"[i] == c
      ensures LowerChar(cs, c) == ["abcdefghijklmnopqrstuvwxyz"[i]]
    {
      LowerOfUpper(i);
    }
  }

  predicate IsQuote(c: char) { c == '\'' || c == '"' || c == '`' }
}

module SqlLexer {
  import opened Basics
  import opened SqlText

  datatype Piece = Word(text: string) | Literal(quote: char, body: string) | Open | Close | Other(c: char)

  // How far one step inside quotes goes; 0 at the closing quote. A backslash hides the next
  // character except in backquotes, and a doubled quote does not close.
  function StepWidth(s: string, i: nat, q: char): nat
    requires i < |s|
  {
    if s[i] == '\\' && q != '`' then 2
    else if s[i] != q then 1
    else if i + 1 < |s| && s[i + 1] == q then 2
    else 0
  }

  // Where the closing quote is, looking from i on; None if there is none.
  function BodyEnd(s: string, i: nat, q: char): (e: Option<nat>)
    ensures e.Some? ==> i <= e.value < |s| && s[e.value] == q && (e.value + 1 < |s| ==> s[e.value + 1] != q)
    decreases |s| - i
  {
    if i >= |s| then None
    else
      var w := StepWidth(s, i, q);
      if w == 0 then Some(i) else BodyEnd(s, i + w, q)
  }

  // Where the run of word characters from i on ends.
  function RunEnd(cs: Charset, s: string, i: nat): (e: nat)
    requires i <= |s|
    ensures i <= e <= |s|
    ensures forall k :: i <= k < e ==> IsWordChar(cs, s[k])
    ensures e < |s| ==> !IsWordChar(cs, s[e])
    decreases |s| - i
  {
    if i < |s| && IsWordChar(cs, s[i]) then RunEnd(cs, s, i + 1) else i
  }

  // Where the piece at i ends; None iff it is a literal that is never closed.
  function PieceEnd(cs: Charset, s: string, i: nat): (e: Option<nat>)
    requires i < |s|
    ensures e.Some? ==> i < e.value <= |s|
  {
    if IsQuote(s[i]) then
      var e := BodyEnd(s, i + 1, s[i]);
      if e.None? then None else Some(e.value + 1)
    else if IsWordChar(cs, s[i]) then Some(RunEnd(cs, s, i))
    else Some(i + 1)
  }

  function PieceAt(cs: Charset, s: string, i: nat, e: nat): Piece
    requires i < e <= |s|
    requires IsQuote(s[i]) ==> i + 1 < e
  {
    if IsQuote(s[i]) then Literal(s[i], s[i + 1..e - 1])
    else if IsWordChar(cs, s[i]) then Word(s[i..e])
    else if s[i] == '(' then Open
    else if s[i] == ')' then Close
    else Other(s[i])
  }

  // The pieces from i on; None iff a quote is left open.
  function Lex(cs: Charset, s: string, i: nat): Option<seq<Piece>>
    requires i <= |s|
    decreases |s| - i
  {
    if i == |s| then Some([])
    else
      var e := PieceEnd(cs, s, i);
      if e.None? then None else Prepend(PieceAt(cs, s, i, e.value), Lex(cs, s, e.value))
  }

  function Prepend(p: Piece, rest: Option<seq<Piece>>): Option<seq<Piece>> {
    match rest
    case None => None
    case Some(ps) => Some([p] + ps)
  }

  // ---------------------------------------------------------------------------------------
  // The inverse of Lex
  // ---------------------------------------------------------------------------------------

  function Show(p: Piece): string {
    match p
    case Word(text) => text
    case Literal(q, body) => [q] + body + [q]
    case Open => "("
    case Close => ")"
    case Other(c) => [c]
  }

  function ShowAll(ps: seq<Piece>): string {
    if ps == [] then "" else Show(ps[0]) + ShowAll(ps[1..])
  }

  // A body that does not close early and does not hide the closing quote.
  predicate ClosedBody(q: char, body: string) {
    BodyEnd(body + [q], 0, q) == Some(|body|)
  }

  predicate GoodPiece(cs: Charset, p: Piece) {
    match p
    case Word(text) => text != "" && forall i :: 0 <= i < |text| ==> IsWordChar(cs, text[i])
    case Literal(q, body) => IsQuote(q) && ClosedBody(q, body)
    case Other(c) => !IsQuote(c) && !IsWordChar(cs, c) && c != '(' && c != ')'
    case _ => true
  }

  // Words do not touch words, nor literals literals of the same quote.
  predicate MayFollow(p: Piece, next: Piece) {
    && !(p.Word? && next.Word?)
    && !(p.Literal? && next.Literal? && p.quote == next.quote)
  }

  predicate Good(cs: Charset, ps: seq<Piece>) {
    && (forall i :: 0 <= i < |ps| ==> GoodPiece(cs, ps[i]))
    && (forall i :: 0 <= i < |ps| - 1 ==> MayFollow(ps[i], ps[i + 1]))
  }

  // The same characters d places further on, not followed by the quote again, close there too.
  lemma {:induction false} BodyMoves(s: string, i: nat, t: string, d: int, q: char, n: nat)
    requires BodyEnd(s, i, q) == Some(i + n) && 0 <= i + d && i + d + n < |t|
    requires forall k :: i <= k <= i + n ==> s[k] == t[k + d]
    requires i + d + n + 1 < |t| ==> t[i + d + n + 1] != q
    ensures BodyEnd(t, i + d, q) == Some(i + d + n)
    decreases n
  {
    var w := StepWidth(s, i, q);
    assert s[i] == t[i + d];
    if w > 0 {
      assert w <= n;
      assert s[i + 1] == t[i + 1 + d];
      assert StepWidth(t, i + d, q) == w;
      BodyMoves(s, i + w, t, d, q, n - w);
    }
  }

  // What may stand behind a piece without becoming part of it.
  predicate Ends(cs: Charset, p: Piece, s: string, e: nat) {
    e < |s| ==> (p.Word? ==> !IsWordChar(cs, s[e])) && (p.Literal? ==> s[e] != p.quote)
  }

  lemma PieceOfShown(cs: Charset, p: Piece, s: string, i: nat, e: nat)
    requires GoodPiece(cs, p) && i <= e <= |s| && s[i..e] == Show(p) && Ends(cs, p, s, e)
    ensures i < e && PieceEnd(cs, s, i) == Some(e) && PieceAt(cs, s, i, e) == p
  {
    if p.Literal? {
      LiteralOfShown(p.quote, p.body, s, i, e);
    } else {
      assert s[i] == s[i..e][0];
      if p.Word? {
        forall k | i <= k < e ensures IsWordChar(cs, s[k]) {
          assert s[k] == p.text[k - i];
        }
        RunOf(cs, s, i, e);
      }
    }
  }

  lemma LiteralOfShown(q: char, body: string, s: string, i: nat, e: nat)
    requires IsQuote(q) && ClosedBody(q, body)
    requires i <= e <= |s| && s[i..e] == [q] + body + [q] && (e < |s| ==> s[e] != q)
    ensures i < e - 1 && s[i] == q && BodyEnd(s, i + 1, q) == Some(e - 1) && s[i + 1..e - 1] == body
  {
    var t := body + [q];
    var u := s[i..e];
    assert s[i] == u[0];
    forall k | 0 <= k <= |body| ensures t[k] == s[k + (i + 1)] {
      assert s[k + (i + 1)] == u[k + 1];
    }
    BodyMoves(t, 0, s, i + 1, q, |body|);
    var b := s[i + 1..e - 1];
    forall k | 0 <= k < |body| ensures b[k] == body[k] {
      assert b[k] == s[k + (i + 1)] == t[k];
    }
  }

  lemma {:induction false} RunOf(cs: Charset, s: string, i: nat, e: nat)
    requires i <= e <= |s| && (forall k :: i <= k < e ==> IsWordChar(cs, s[k])) && (e < |s| ==> !IsWordChar(cs, s[e]))
    ensures RunEnd(cs, s, i) == e
    decreases e - i
  {
    if i < e {
      RunOf(cs, s, i + 1, e);
    }
  }

  lemma ShownOfPiece(cs: Charset, s: string, i: nat)
    requires i < |s| && PieceEnd(cs, s, i).Some?
    ensures
      var e := PieceEnd(cs, s, i).value;
      var p := PieceAt(cs, s, i, e);
      GoodPiece(cs, p) && Ends(cs, p, s, e) && Show(p) == s[i..e]
  {
    if IsQuote(s[i]) {
      ShownOfLiteral(s, i, PieceEnd(cs, s, i).value, s[i]);
    }
  }

  lemma ShownOfLiteral(s: string, i: nat, e: nat, q: char)
    requires i < |s| && s[i] == q && e >= 1 && BodyEnd(s, i + 1, q) == Some(e - 1)
    ensures ClosedBody(q, s[i + 1..e - 1]) && [q] + s[i + 1..e - 1] + [q] == s[i..e]
  {
    var body := s[i + 1..e - 1];
    var t := body + [q];
    forall k | i + 1 <= k <= i + 1 + |body| ensures s[k] == t[k + (-(i + 1))] {
    }
    BodyMoves(s, i + 1, t, -(i + 1), q, |body|);
  }

  lemma Split(s: string, i: nat, a: string, b: string)
    requires i <= |s| && s[i..] == a + b
    ensures i + |a| <= |s| && s[i..i + |a|] == a && s[i + |a|..] == b
  {
    var t := s[i..];
    assert t[..|a|] == a && t[|a|..] == b;
  }

  lemma GoodTail(cs: Charset, ps: seq<Piece>)
    requires Good(cs, ps) && ps != []
    ensures GoodPiece(cs, ps[0]) && Good(cs, ps[1..])
  {
    var tail := ps[1..];
    forall i | 0 <= i < |tail| - 1 ensures MayFollow(tail[i], tail[i + 1]) {
      assert tail[i] == ps[i + 1] && tail[i + 1] == ps[i + 2];
    }
  }

  lemma LexCons(cs: Charset, s: string, i: nat, e: nat, ps: seq<Piece>)
    requires ps != [] && i < e <= |s| && PieceEnd(cs, s, i) == Some(e) && PieceAt(cs, s, i, e) == ps[0]
    requires Lex(cs, s, e) == Some(ps[1..])
    ensures Lex(cs, s, i) == Some(ps)
  {
    assert ps == [ps[0]] + ps[1..];
  }

  // Lex reads back exactly what was shown.
  lemma {:induction false} LexShow(cs: Charset, s: string, i: nat, ps: seq<Piece>)
    requires Good(cs, ps) && i <= |s| && s[i..] == ShowAll(ps)
    ensures Lex(cs, s, i) == Some(ps)
    decreases |ps|
  {
    if ps == [] {
      assert |s[i..]| == 0;
    } else {
      var e := LexShowFirst(cs, s, i, ps);
      GoodTail(cs, ps);
      LexShow(cs, s, e, ps[1..]);
      LexCons(cs, s, i, e, ps);
    }
  }

  lemma LexShowFirst(cs: Charset, s: string, i: nat, ps: seq<Piece>) returns (e: nat)
    requires Good(cs, ps) && ps != [] && i <= |s| && s[i..] == ShowAll(ps)
    ensures i < e <= |s| && s[e..] == ShowAll(ps[1..])
    ensures PieceEnd(cs, s, i) == Some(e) && PieceAt(cs, s, i, e) == ps[0]
  {
    e := i + |Show(ps[0])|;
    Split(s, i, Show(ps[0]), ShowAll(ps[1..]));
    GoodEnds(cs, s, e, ps);
    PieceOfShown(cs, ps[0], s, i, e);
  }

  // What follows a piece in a good list does not extend it.
  lemma GoodEnds(cs: Charset, s: string, e: nat, ps: seq<Piece>)
    requires Good(cs, ps) && ps != [] && e <= |s| && s[e..] == ShowAll(ps[1..])
    ensures Ends(cs, ps[0], s, e)
  {
    if |ps| > 1 {
      assert GoodPiece(cs, ps[0]) && GoodPiece(cs, ps[1]) && MayFollow(ps[0], ps[1]);
      Split(s, e, Show(ps[1]), ShowAll(ps[1..][1..]));
      assert s[e] == s[e..e + |Show(ps[1])|][0];
    } else {
      assert s[e..] == "";
    }
  }

  // And every text that lexes is shown by its pieces.
  lemma {:induction false} ShowLex(cs: Charset, s: string, i: nat)
    requires i <= |s| && Lex(cs, s, i).Some?
    ensures Good(cs, Lex(cs, s, i).value)
    ensures ShowAll(Lex(cs, s, i).value) == s[i..]
    decreases |s| - i
  {
    if i < |s| {
      var e := PieceEnd(cs, s, i).value;
      var p := PieceAt(cs, s, i, e);
      ShownOfPiece(cs, s, i);
      ShowLex(cs, s, e);
      var tail := Lex(cs, s, e).value;
      assert ([p] + tail)[1..] == tail;
      assert s[i..] == s[i..e] + s[e..];
      GoodCons(cs, s, p, e);
    }
  }

  lemma GoodCons(cs: Charset, s: string, p: Piece, e: nat)
    requires e <= |s| && Lex(cs, s, e).Some? && Good(cs, Lex(cs, s, e).value)
    requires GoodPiece(cs, p) && Ends(cs, p, s, e)
    ensures Good(cs, [p] + Lex(cs, s, e).value)
  {
    var tail := Lex(cs, s, e).value;
    var ps := [p] + tail;
    forall i | 0 <= i < |ps| ensures GoodPiece(cs, ps[i]) {
      if i > 0 {
        assert ps[i] == tail[i - 1];
      }
    }
    forall i | 0 <= i < |ps| - 1 ensures MayFollow(ps[i], ps[i + 1]) {
      if i > 0 {
        assert ps[i] == tail[i - 1] && ps[i + 1] == tail[i];
      }
    }
  }

  // ---------------------------------------------------------------------------------------
  // Closed literals, by what is written between the quotes
  // ---------------------------------------------------------------------------------------

  datatype Unit = Plain(c: char) | Doubled | Escaped(c: char)

  predicate ValidUnit(q: char, u: Unit) {
    match u
    case Plain(c) => c != q && (c == '\\' ==> q == '`')
    case Doubled => true
    case Escaped(c) => q != '`'
  }

  predicate ValidUnits(q: char, us: seq<Unit>) {
    forall i :: 0 <= i < |us| ==> ValidUnit(q, us[i])
  }

  function ShowUnit(q: char, u: Unit): string {
    match u
    case Plain(c) => [c]
    case Doubled => [q, q]
    case Escaped(c) => ['\\', c]
  }

  function ShowUnits(q: char, us: seq<Unit>): string {
    if us == [] then "" else ShowUnit(q, us[0]) + ShowUnits(q, us[1..])
  }

  // A literal is closed iff its body is written in units: doubled quotes, escaped characters
  // and plain ones.
  lemma {:induction false} ClosedIffUnits(q: char, body: string)
    requires IsQuote(q)
    ensures ClosedBody(q, body) <==> exists us :: ValidUnits(q, us) && ShowUnits(q, us) == body
  {
    if ClosedBody(q, body) {
      var us := UnitsOf(q, body + [q], 0);
      assert (body + [q])[0..|body|] == body;
    }
    forall us | ValidUnits(q, us) && ShowUnits(q, us) == body ensures ClosedBody(q, body) {
      var t := body + [q];
      assert t[0..] == ShowUnits(q, us) + [q];
      UnitsClose(q, t, 0, us);
    }
  }

  lemma {:induction false} UnitsOf(q: char, t: string, i: nat) returns (us: seq<Unit>)
    requires IsQuote(q) && i < |t| && BodyEnd(t, i, q) == Some(|t| - 1)
    ensures ValidUnits(q, us) && ShowUnits(q, us) == t[i..|t| - 1]
    decreases |t| - i
  {
    var w := StepWidth(t, i, q);
    if w == 0 {
      us := [];
    } else {
      var rest := UnitsOf(q, t, i + w);
      var u := if t[i] == '\\' && q != '`' then Escaped(t[i + 1]) else if t[i] == q then Doubled else Plain(t[i]);
      us := [u] + rest;
      assert us[1..] == rest;
      assert ShowUnit(q, u) == t[i..i + w];
      assert t[i..|t| - 1] == t[i..i + w] + t[i + w..|t| - 1];
    }
  }

  lemma {:induction false} UnitsClose(q: char, t: string, i: nat, us: seq<Unit>)
    requires IsQuote(q) && ValidUnits(q, us) && i <= |t| && t[i..] == ShowUnits(q, us) + [q]
    ensures BodyEnd(t, i, q) == Some(|t| - 1)
    decreases |us|
  {
    assert t[i] == t[i..][0];
    if us != [] {
      var u := ShowUnit(q, us[0]);
      assert t[i..] == u + (ShowUnits(q, us[1..]) + [q]);
      Split(t, i, u, ShowUnits(q, us[1..]) + [q]);
      UnitsClose(q, t, i + |u|, us[1..]);
      assert ValidUnit(q, us[0]);
      assert |u| == 2 ==> t[i + 1] == t[i..i + |u|][1];
      assert StepWidth(t, i, q) == |u|;
    }
  }
}

module SqlScan {
  import opened Basics
  import opened SqlText
  import opened SqlLexer

  // ---------------------------------------------------------------------------------------
  // The specification
  // ---------------------------------------------------------------------------------------

  function Change(p: Piece): int {
    if p.Open? then 1 else if p.Close? then -1 else 0
  }

  // Open minus closed parentheses among the first k pieces.
  function Depth(ps: seq<Piece>, k: nat): int
    requires k <= |ps|
  {
    if k == 0 then 0 else Depth(ps, k - 1) + Change(ps[k - 1])
  }

  predicate Balanced(ps: seq<Piece>) {
    (forall k :: 0 <= k <= |ps| ==> Depth(ps, k) >= 0) && Depth(ps, |ps|) == 0
  }

  // A word is reported when what ends it is a literal, the end of the text, or leaves depth 0.
  predicate Reported(ps: seq<Piece>, k: nat)
    requires k < |ps|
  {
    ps[k].Word? && (k + 1 == |ps| || ps[k + 1].Literal? || Depth(ps, k + 2) == 0)
  }

  // The reported words from piece k on, in order.
  function ReportedFrom(cs: Charset, ps: seq<Piece>, k: nat): seq<string>
    requires k <= |ps|
    decreases |ps| - k
  {
    if k == |ps| then []
    else (if Reported(ps, k) then [Lower(cs, ps[k].text)] else []) + ReportedFrom(cs, ps, k + 1)
  }

  function Words(cs: Charset, sql: string): Option<seq<string>> {
    match Lex(cs, sql, 0)
    case None => None
    case Some(ps) => if Balanced(ps) then Some(ReportedFrom(cs, ps, 0)) else None
  }

  // ---------------------------------------------------------------------------------------
  // Piece by piece, with the depth carried along
  // ---------------------------------------------------------------------------------------

  // Is the word in front of `rest` reported when it stands at depth d?
  predicate Flushed(rest: seq<Piece>, d: int) {
    if rest == [] then d == 0 else rest[0].Literal? || d + Change(rest[0]) == 0
  }

  function Fold(cs: Charset, ps: seq<Piece>, d: int): Option<seq<string>> {
    if d < 0 then None
    else if ps == [] then (if d == 0 then Some([]) else None)
    else
      After(if ps[0].Word? && Flushed(ps[1..], d) then [Lower(cs, ps[0].text)] else [],
            Fold(cs, ps[1..], d + Change(ps[0])))
  }

  function After(words: seq<string>, rest: Option<seq<string>>): Option<seq<string>> {
    match rest
    case None => None
    case Some(ws) => Some(words + ws)
  }

  lemma {:induction false} FoldFrom(cs: Charset, ps: seq<Piece>, k: nat)
    requires k <= |ps|
    requires forall j :: 0 <= j <= k ==> Depth(ps, j) >= 0
    ensures Fold(cs, ps[k..], Depth(ps, k)) == if Balanced(ps) then Some(ReportedFrom(cs, ps, k)) else None
    decreases |ps| - k
  {
    if k < |ps| {
      assert ps[k..][1..] == ps[k + 1..];
      assert Depth(ps, k + 1) == Depth(ps, k) + Change(ps[k]);
      if Depth(ps, k + 1) >= 0 {
        FoldFrom(cs, ps, k + 1);
        if ps[k].Word? {
          assert k + 1 < |ps| ==> (Flushed(ps[k + 1..], Depth(ps, k)) <==> Reported(ps, k));
        }
      }
    }
  }

  // ---------------------------------------------------------------------------------------
  // Character by character
  // ---------------------------------------------------------------------------------------

  function Flush(cs: Charset, words: seq<string>, buf: string, keep: bool): seq<string> {
    if buf != "" && keep then words + [Lower(cs, buf)] else words
  }

  function DepthAfter(c: char, d: int): int {
    if c == '(' then d + 1 else if c == ')' then d - 1 else d
  }

  // The scanner from position i on, with its depth, its pending word and the words so far.
  function Machine(cs: Charset, s: string, i: nat, d: int, buf: string, words: seq<string>): Option<seq<string>>
    requires i <= |s|
    decreases |s| - i
  {
    if i == |s| then
      if d != 0 then None else Some(Flush(cs, words, buf, true))
    else if IsQuote(s[i]) then
      var e := BodyEnd(s, i + 1, s[i]);
      if e.None? then None else Machine(cs, s, e.value + 1, d, "", Flush(cs, words, buf, true))
    else
      var e := DepthAfter(s[i], d);
      if e < 0 then None
      else if IsWordChar(cs, s[i]) then Machine(cs, s, i + 1, e, buf + [s[i]], words)
      else Machine(cs, s, i + 1, e, "", Flush(cs, words, buf, e == 0))
  }

  lemma {:induction false} MachineReadsWord(cs: Charset, s: string, i: nat, e: nat, d: nat, buf: string,
      words: seq<string>)
    requires i <= e <= |s| && forall k :: i <= k < e ==> IsWordChar(cs, s[k])
    ensures Machine(cs, s, i, d, buf, words) == Machine(cs, s, e, d, buf + s[i..e], words)
    decreases e - i
  {
    if i == e {
      assert buf + s[i..e] == buf;
    } else {
      assert buf + [s[i]] + s[i + 1..e] == buf + s[i..e];
      MachineReadsWord(cs, s, i + 1, e, d, buf + [s[i]], words);
    }
  }

  lemma FoldCons(cs: Charset, p: Piece, ps: seq<Piece>, d: nat, words: seq<string>)
    ensures After(words, Fold(cs, [p] + ps, d)) ==
            After(words + (if p.Word? && Flushed(ps, d) then [Lower(cs, p.text)] else []), Fold(cs, ps, d + Change(p)))
  {
    assert ([p] + ps)[1..] == ps;
    var rest := Fold(cs, ps, d + Change(p));
    if rest.Some? {
      var own := if p.Word? && Flushed(ps, d) then [Lower(cs, p.text)] else [];
      assert words + (own + rest.value) == words + own + rest.value;
    }
  }

  // What the machine returns with nothing pending, in terms of the pieces.
  function Expected(cs: Charset, s: string, i: nat, d: int, words: seq<string>): Option<seq<string>>
    requires i <= |s|
  {
    match Lex(cs, s, i)
    case None => None
    case Some(ps) => After(words, Fold(cs, ps, d))
  }

  // Any piece but a word leaves nothing pending.
  lemma MachineSkips(cs: Charset, s: string, i: nat, d: nat, words: seq<string>)
    requires i < |s| && PieceEnd(cs, s, i).Some?
    requires !PieceAt(cs, s, i, PieceEnd(cs, s, i).value).Word?
    ensures
      var e := PieceEnd(cs, s, i).value;
      var d' := d + Change(PieceAt(cs, s, i, e));
      Machine(cs, s, i, d, "", words) == if d' < 0 then None else Machine(cs, s, e, d', "", words)
  {
  }

  lemma {:induction false} MachineIsFold(cs: Charset, s: string, i: nat, d: nat, words: seq<string>)
    requires i <= |s|
    ensures Machine(cs, s, i, d, "", words) == Expected(cs, s, i, d, words)
    decreases |s| - i, 0
  {
    assert words + [] == words;
    if i < |s| && PieceEnd(cs, s, i).Some? {
      var e := PieceEnd(cs, s, i).value;
      var p := PieceAt(cs, s, i, e);
      if Lex(cs, s, e).Some? {
        FoldCons(cs, p, Lex(cs, s, e).value, d, words);
      }
      if p.Word? {
        MachineReadsWord(cs, s, i, e, d, "", words);
        assert "" + p.text == p.text;
        WordThenRest(cs, s, e, d, p.text, words);
      } else {
        MachineSkips(cs, s, i, d, words);
        if d + Change(p) >= 0 {
          MachineIsFold(cs, s, e, d + Change(p), words);
        }
      }
    }
  }

  // A pending word is settled by the character behind it.
  lemma {:induction false} WordThenRest(cs: Charset, s: string, i: nat, d: nat, w: string, words: seq<string>)
    requires w != "" && i <= |s| && (i < |s| ==> !IsWordChar(cs, s[i]))
    ensures Machine(cs, s, i, d, w, words) ==
            match Lex(cs, s, i)
            case None => None
            case Some(ps) => After(words + (if Flushed(ps, d) then [Lower(cs, w)] else []), Fold(cs, ps, d))
    decreases |s| - i, 1
  {
    var keep := i == |s| || IsQuote(s[i]) || DepthAfter(s[i], d) == 0;
    var words' := Flush(cs, words, w, keep);
    assert Machine(cs, s, i, d, w, words) == Machine(cs, s, i, d, "", words');
    MachineIsFold(cs, s, i, d, words');
    assert words + [] == words;
  }

  lemma MachineIsWords(cs: Charset, sql: string)
    ensures Machine(cs, sql, 0, 0, "", []) == Words(cs, sql)
  {
    MachineIsFold(cs, sql, 0, 0, []);
    if Lex(cs, sql, 0).Some? {
      var ps := Lex(cs, sql, 0).value;
      FoldFrom(cs, ps, 0);
      assert ps[0..] == ps;
      if Fold(cs, ps, 0).Some? {
        assert [] + Fold(cs, ps, 0).value == Fold(cs, ps, 0).value;
      }
    }
  }

  // ---------------------------------------------------------------------------------------
  // The loops
  // ---------------------------------------------------------------------------------------

  method SkipLiteral(sql: string, start: nat, quote: char) returns (i: nat, closed: bool)
    ensures BodyEnd(sql, start, quote) == if closed then Some(i) else None
  {
    var n := |sql|;
    i, closed := start, false;
    while i < n
      invariant !closed && BodyEnd(sql, start, quote) == BodyEnd(sql, i, quote)
      decreases n - i
    {
      if sql[i] == '\\' && quote != '`' {
        i := i + 2;
        continue;
      }
      if sql[i] == quote {
        if i + 1 < n && sql[i + 1] == quote {
          i := i + 2;
          continue;
        }
        closed := true;
        break;
      }
      i := i + 1;
    }
  }

  method Depth0Words(cs: Charset, sql: string) returns (r: Option<seq<string>>)
    ensures r == Words(cs, sql)
  {
    var words: seq<string>, buf := [], "";
    var depth, i, n := 0, 0, |sql|;
    MachineIsWords(cs, sql);
    while i < n
      invariant 0 <= i <= n && depth >= 0
      invariant Machine(cs, sql, 0, 0, "", []) == Machine(cs, sql, i, depth, buf, words)
      decreases n - i
    {
      var c := sql[i];
      if IsQuote(c) {
        words, buf := Flush(cs, words, buf, true), "";
        var j, closed := SkipLiteral(sql, i + 1, c);
        if !closed {
          return None;
        }
        i := j + 1;
        continue;
      }
      if c == '(' {
        depth := depth + 1;
      } else if c == ')' {
        depth := depth - 1;
        if depth < 0 {
          return None;
        }
      }
      if IsWordChar(cs, c) {
        buf := buf + [c];
      } else {
        words, buf := Flush(cs, words, buf, depth == 0), "";
      }
      i := i + 1;
    }
    if buf != "" && depth == 0 {
      words := words + [Lower(cs, buf)];
    }
    r := if depth != 0 then None else Some(words);
  }
}

// What the scanner's answer means for texts.
module SqlPrint {
  import opened Basics
  import opened SqlText
  import opened SqlLexer
  import opened SqlScan

  // A text is accepted exactly when it is written in pieces whose parentheses match -- so None
  // means an open quote or unbalanced parentheses -- and the answer is the reported words.
  lemma AcceptedIffWellFormed(cs: Charset, sql: string)
    ensures Words(cs, sql).Some? <==> exists ps :: Good(cs, ps) && ShowAll(ps) == sql && Balanced(ps)
    ensures forall ps :: Good(cs, ps) && ShowAll(ps) == sql && Balanced(ps) ==>
            Words(cs, sql) == Some(ReportedFrom(cs, ps, 0))
  {
    assert sql[0..] == sql;
    if Words(cs, sql).Some? {
      ShowLex(cs, sql, 0);
    }
    forall ps | Good(cs, ps) && ShowAll(ps) == sql ensures Lex(cs, sql, 0) == Some(ps) {
      LexShow(cs, sql, 0, ps);
    }
  }

  // Which words at depth 0 are reported, and which others.
  lemma ReportedIff(ps: seq<Piece>, k: nat)
    requires Balanced(ps) && k < |ps| && ps[k].Word?
    ensures Reported(ps, k) <==>
            || (Depth(ps, k) == 0 && !(k + 1 < |ps| && ps[k + 1].Open?))
            || (k + 1 < |ps| && ps[k + 1].Literal?)
            || (Depth(ps, k) == 1 && k + 1 < |ps| && ps[k + 1].Close?)
  {
    assert Depth(ps, k + 1) == Depth(ps, k) >= 0;
    if k + 1 < |ps| {
      assert Depth(ps, k + 2) == Depth(ps, k) + Change(ps[k + 1]) >= 0;
    }
  }

  // ---------------------------------------------------------------------------------------
  // What is inside quotes does not matter
  // ---------------------------------------------------------------------------------------

  predicate SameOutside(ps: seq<Piece>, qs: seq<Piece>) {
    |ps| == |qs| &&
    forall i :: 0 <= i < |ps| ==>
      ps[i] == qs[i] || (ps[i].Literal? && qs[i].Literal? && ps[i].quote == qs[i].quote
          && ClosedBody(qs[i].quote, qs[i].body))
  }

  lemma {:induction false} SameDepth(ps: seq<Piece>, qs: seq<Piece>, k: nat)
    requires SameOutside(ps, qs) && k <= |ps|
    ensures Depth(ps, k) == Depth(qs, k)
  {
    if k > 0 {
      SameDepth(ps, qs, k - 1);
    }
  }

  lemma {:induction false} SameReported(cs: Charset, ps: seq<Piece>, qs: seq<Piece>, k: nat)
    requires SameOutside(ps, qs) && k <= |ps|
    ensures ReportedFrom(cs, ps, k) == ReportedFrom(cs, qs, k)
    decreases |ps| - k
  {
    if k < |ps| {
      SameReported(cs, ps, qs, k + 1);
      if k + 2 <= |ps| {
        SameDepth(ps, qs, k + 2);
      }
    }
  }

  // Rewriting the insides of closed literals at will leaves the answer as it was.
  lemma InsideQuotesIsIgnored(cs: Charset, sql: string, ps: seq<Piece>, qs: seq<Piece>)
    requires Lex(cs, sql, 0) == Some(ps) && SameOutside(ps, qs)
    ensures Words(cs, ShowAll(qs)) == Words(cs, sql)
  {
    ShowLex(cs, sql, 0);
    forall i | 0 <= i < |qs| ensures GoodPiece(cs, qs[i]) {
      assert GoodPiece(cs, ps[i]);
    }
    forall i | 0 <= i < |qs| - 1 ensures MayFollow(qs[i], qs[i + 1]) {
      assert MayFollow(ps[i], ps[i + 1]);
    }
    var t := ShowAll(qs);
    assert t[0..] == t;
    LexShow(cs, t, 0, qs);
    forall k | 0 <= k <= |ps| ensures Depth(ps, k) == Depth(qs, k) {
      SameDepth(ps, qs, k);
    }
    SameReported(cs, ps, qs, 0);
  }

  // ---------------------------------------------------------------------------------------
  // Print, then scan
  // ---------------------------------------------------------------------------------------

  datatype Node = Name(word: string) | Group(inner: seq<Node>) | Quoted(quote: char, units: seq<Unit>)

  predicate ValidNode(cs: Charset, n: Node) {
    match n
    case Name(w) => w != "" && forall i :: 0 <= i < |w| ==> IsWordChar(cs, w[i])
    case Group(inner) => forall m :: m in inner ==> ValidNode(cs, m)
    case Quoted(q, us) => IsQuote(q) && ValidUnits(q, us)
  }

  // Every name, group and literal is followed by a space; a group has a space behind its
  // opening parenthesis.
  function PrintOne(n: Node): string
    decreases n
  {
    match n
    case Name(w) => w
    case Group(inner) => "( " + Print(inner) + ")"
    case Quoted(q, us) => [q] + ShowUnits(q, us) + [q]
  }

  function Print(ns: seq<Node>): string
    decreases ns
  {
    if ns == [] then "" else PrintOne(ns[0]) + " " + Print(ns[1..])
  }

  const SPACE := Other(' ')

  function PiecesOne(n: Node): seq<Piece>
    decreases n
  {
    match n
    case Name(w) => [Word(w)]
    case Group(inner) => [Open, SPACE] + Pieces(inner) + [Close]
    case Quoted(q, us) => [Literal(q, ShowUnits(q, us))]
  }

  function Pieces(ns: seq<Node>): seq<Piece>
    decreases ns
  {
    if ns == [] then [] else PiecesOne(ns[0]) + [SPACE] + Pieces(ns[1..])
  }

  function TopName(cs: Charset, n: Node): seq<string> {
    if n.Name? then [Lower(cs, n.word)] else []
  }

  function TopNames(cs: Charset, ns: seq<Node>): seq<string> {
    if ns == [] then [] else TopName(cs, ns[0]) + TopNames(cs, ns[1..])
  }

  lemma {:induction false} ShowConcat(ps: seq<Piece>, qs: seq<Piece>)
    ensures ShowAll(ps + qs) == ShowAll(ps) + ShowAll(qs)
  {
    if ps == [] {
      assert ps + qs == qs;
    } else {
      assert (ps + qs)[1..] == ps[1..] + qs;
      ShowConcat(ps[1..], qs);
    }
  }

  lemma ShowOne(p: Piece)
    ensures ShowAll([p]) == Show(p)
  {
    assert [p][1..] == [];
  }

  lemma {:induction false} PrintOneShowsPieces(n: Node)
    ensures ShowAll(PiecesOne(n)) == PrintOne(n)
    decreases n
  {
    match n
    case Name(w) => ShowOne(Word(w));
    case Group(inner) =>
      PrintShowsPieces(inner);
      ShowGroup(Pieces(inner));
    case Quoted(q, us) => ShowOne(Literal(q, ShowUnits(q, us)));
  }

  lemma {:induction false} PrintShowsPieces(ns: seq<Node>)
    ensures ShowAll(Pieces(ns)) == Print(ns)
    decreases ns
  {
    if ns != [] {
      PrintOneShowsPieces(ns[0]);
      PrintShowsPieces(ns[1..]);
      ShowOne(SPACE);
      ShowConcat(PiecesOne(ns[0]), [SPACE]);
      ShowConcat(PiecesOne(ns[0]) + [SPACE], Pieces(ns[1..]));
    }
  }

  lemma ShowGroup(ps: seq<Piece>)
    ensures ShowAll([Open, SPACE] + ps + [Close]) == "( " + ShowAll(ps) + ")"
  {
    ShowOne(Open);
    ShowOne(SPACE);
    ShowOne(Close);
    ShowConcat([Open], [SPACE]);
    assert [Open] + [SPACE] == [Open, SPACE];
    ShowConcat([Open, SPACE], ps);
    ShowConcat([Open, SPACE] + ps, [Close]);
  }

  // Pieces that touch each other only around spaces and parentheses.
  predicate Spaced(cs: Charset, ps: seq<Piece>) {
    && (forall i :: 0 <= i < |ps| ==> GoodPiece(cs, ps[i]))
    && (forall i :: 0 <= i < |ps| && (ps[i].Word? || ps[i].Literal?) ==> i + 1 < |ps| && ps[i + 1].Other?)
  }

  lemma SpacedConcat(cs: Charset, ps: seq<Piece>, qs: seq<Piece>)
    requires Spaced(cs, ps) && Spaced(cs, qs)
    ensures Spaced(cs, ps + qs)
  {
  }

  lemma {:induction false} OneIsSpaced(cs: Charset, n: Node)
    requires ValidNode(cs, n)
    ensures Spaced(cs, PiecesOne(n) + [SPACE])
    decreases n
  {
    match n
    case Name(w) =>
    case Group(inner) =>
      PiecesAreSpaced(cs, inner);
      SpacedConcat(cs, [Open, SPACE], Pieces(inner));
      SpacedConcat(cs, [Open, SPACE] + Pieces(inner), [Close]);
      SpacedConcat(cs, [Open, SPACE] + Pieces(inner) + [Close], [SPACE]);
    case Quoted(q, us) =>
      ClosedIffUnits(q, ShowUnits(q, us));
  }

  lemma {:induction false} PiecesAreSpaced(cs: Charset, ns: seq<Node>)
    requires forall n :: n in ns ==> ValidNode(cs, n)
    ensures Spaced(cs, Pieces(ns))
    decreases ns
  {
    if ns != [] {
      OneIsSpaced(cs, ns[0]);
      PiecesAreSpaced(cs, ns[1..]);
      SpacedConcat(cs, PiecesOne(ns[0]) + [SPACE], Pieces(ns[1..]));
    }
  }

  lemma AfterNothing(f: Option<seq<string>>)
    ensures After([], f) == f
  {
    if f.Some? {
      assert [] + f.value == f.value;
    }
  }

  lemma FoldStep(cs: Charset, p: Piece, ps: seq<Piece>, d: nat)
    requires !p.Word?
    ensures Fold(cs, [p] + ps, d) == Fold(cs, ps, d + Change(p))
  {
    assert ([p] + ps)[1..] == ps;
    AfterNothing(Fold(cs, ps, d + Change(p)));
  }

  lemma {:induction false} FoldNode(cs: Charset, n: Node, rest: seq<Piece>, d: nat)
    ensures Fold(cs, PiecesOne(n) + ([SPACE] + rest), d) ==
            After(if d == 0 then TopName(cs, n) else [], Fold(cs, rest, d))
    decreases n
  {
    var tail := [SPACE] + rest;
    FoldStep(cs, SPACE, rest, d);
    AfterNothing(Fold(cs, rest, d));
    match n
    case Name(w) =>
      assert ([Word(w)] + tail)[1..] == tail;
    case Group(inner) =>
      FoldGroup(cs, inner, tail, d);
    case Quoted(q, us) =>
      FoldStep(cs, Literal(q, ShowUnits(q, us)), tail, d);
  }

  lemma {:induction false} FoldGroup(cs: Charset, inner: seq<Node>, tail: seq<Piece>, d: nat)
    ensures Fold(cs, [Open, SPACE] + Pieces(inner) + [Close] + tail, d) == Fold(cs, tail, d)
    decreases inner, 1
  {
    var close := [Close] + tail;
    assert [Open, SPACE] + Pieces(inner) + [Close] + tail == [Open] + ([SPACE] + (Pieces(inner) + close));
    FoldStep(cs, Open, [SPACE] + (Pieces(inner) + close), d);
    FoldStep(cs, SPACE, Pieces(inner) + close, d + 1);
    FoldNodes(cs, inner, close, d + 1);
    FoldStep(cs, Close, tail, d + 1);
    AfterNothing(Fold(cs, close, d + 1));
  }

  // Folding over the pieces of nodes reports the top names at depth 0 and nothing below.
  lemma {:induction false} FoldNodes(cs: Charset, ns: seq<Node>, tail: seq<Piece>, d: nat)
    ensures Fold(cs, Pieces(ns) + tail, d) == After(if d == 0 then TopNames(cs, ns) else [], Fold(cs, tail, d))
    decreases ns, 0
  {
    var f := Fold(cs, tail, d);
    AfterNothing(f);
    if ns == [] {
      assert [] + tail == tail;
    } else {
      var rest := Pieces(ns[1..]) + tail;
      FoldNodes(cs, ns[1..], tail, d);
      assert Pieces(ns) + tail == PiecesOne(ns[0]) + ([SPACE] + rest);
      FoldNode(cs, ns[0], rest, d);
      if f.Some? {
        assert TopName(cs, ns[0]) + (TopNames(cs, ns[1..]) + f.value) ==
            TopName(cs, ns[0]) + TopNames(cs, ns[1..]) + f.value;
      }
    }
  }

  // Scanning a printed tree gives back its top-level names, in order and in lower case.
  lemma PrintThenScan(cs: Charset, ns: seq<Node>)
    requires forall n :: n in ns ==> ValidNode(cs, n)
    ensures Words(cs, Print(ns)) == Some(TopNames(cs, ns))
  {
    var ps := Pieces(ns);
    var sql := Print(ns);
    PrintShowsPieces(ns);
    PiecesAreSpaced(cs, ns);
    assert sql[0..] == sql;
    LexShow(cs, sql, 0, ps);
    FoldFrom(cs, ps, 0);
    assert ps[0..] == ps && ps + [] == ps;
    FoldNodes(cs, ns, [], 0);
    assert TopNames(cs, ns) + [] == TopNames(cs, ns);
  }
}
