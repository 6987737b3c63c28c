// Default deny: which raw SQL texts a read-only session may execute.

module SqlReadable {
  import opened Basics
  import opened SqlText
  import opened SqlLexer
  import opened SqlScan
  import opened SqlPrint

  // Where the first "*/" from i on ends.
  function BlockEnd(s: string, i: nat): (e: Option<nat>)
    ensures e.Some? ==> i + 2 <= e.value <= |s|
    decreases |s| - i
  {
    if i + 2 > |s| then None
    else if s[i] == '*' && s[i + 1] == '/' then Some(i + 2)
    else BlockEnd(s, i + 1)
  }

  function LineEnd(s: string, i: nat): (e: nat)
    requires i <= |s|
    ensures i <= e <= |s|
    decreases |s| - i
  {
    if i == |s| || s[i] == '\n' then i else LineEnd(s, i + 1)
  }

  // Where a comment that starts at i ends; None if none starts there.
  function CommentEnd(s: string, i: nat): (e: Option<nat>)
    requires i < |s|
    ensures e.Some? ==> i < e.value <= |s|
  {
    if i + 1 < |s| && s[i] == '/' && s[i + 1] == '*' then BlockEnd(s, i + 2)
    else if i + 1 < |s| && s[i] == '-' && s[i + 1] == '-' then Some(LineEnd(s, i + 2))
    else None
  }

  // Each comment becomes one space; quotes are not looked at.
  function StripComments(s: string, i: nat): string
    requires i <= |s|
    decreases |s| - i
  {
    if i == |s| then ""
    else
      match CommentEnd(s, i)
      case Some(e) => " " + StripComments(s, e)
      case None => [s[i]] + StripComments(s, i + 1)
  }

  function TrimLeft(cs: Charset, s: string): string {
    if s != "" && IsSpace(cs, s[0]) then TrimLeft(cs, s[1..]) else s
  }

  function TrimRight(cs: Charset, s: string): string {
    if s != "" && IsSpace(cs, s[|s| - 1]) then TrimRight(cs, s[..|s| - 1]) else s
  }

  function Trim(cs: Charset, s: string): string {
    TrimRight(cs, TrimLeft(cs, s))
  }

  // The position of the first semicolon, or the length.
  function Semicolon(s: string, i: nat): (e: nat)
    requires i <= |s|
    ensures i <= e <= |s|
    ensures forall k :: i <= k < e ==> s[k] != ';'
    ensures e < |s| ==> s[e] == ';'
    decreases |s| - i
  {
    if i == |s| || s[i] == ';' then i else Semicolon(s, i + 1)
  }

  // ---------------------------------------------------------------------------------------
  // Locking reads
  // ---------------------------------------------------------------------------------------

  // Case-insensitive match of one pattern letter.
  predicate Matches(cs: Charset, c: char, letter: char) {
    if Ascii(c) then LowerChar(cs, c) == [letter] else cs.folds(c, letter)
  }

  predicate MatchesAt(cs: Charset, s: string, i: nat, w: string) {
    i + |w| <= |s| && forall k :: 0 <= k < |w| ==> Matches(cs, s[i + k], w[k])
  }

  predicate Boundary(cs: Charset, s: string, i: nat)
    requires i <= |s|
  {
    (i > 0 && IsWordChar(cs, s[i - 1])) != (i < |s| && IsWordChar(cs, s[i]))
  }

  // Words separated by white space, with word boundaries at both ends.
  predicate PhraseAt(cs: Charset, s: string, i: nat, words: seq<string>) {
    i <= |s| && Boundary(cs, s, i) && PhraseTail(cs, s, i, words)
  }

  predicate PhraseTail(cs: Charset, s: string, i: nat, words: seq<string>)
    decreases |words|
  {
    words != [] && MatchesAt(cs, s, i, words[0]) &&
    var j := i + |words[0]|;
    if |words| == 1 then Boundary(cs, s, j)
    else exists k :: j < k <= |s| && (forall m :: j <= m < k ==> IsSpace(cs, s[m])) && PhraseTail(cs, s, k, words[1..])
  }

  const LOCKING := [["for", "update"], ["for", "share"], ["lock", "in", "share", "mode"]]

  predicate LockingRead(cs: Charset, s: string) {
    exists i, p :: 0 <= i <= |s| && 0 <= p < |LOCKING| && PhraseAt(cs, s, i, LOCKING[p])
  }

  // ---------------------------------------------------------------------------------------
  // The decision
  // ---------------------------------------------------------------------------------------

  const TOP_LEVEL_WRITE := {"insert", "update", "delete", "replace", "merge", "into", "set"}
  const READABLE_LEAD := {"select", "with"}

  function Stripped(cs: Charset, sql: string): string {
    Trim(cs, StripComments(sql, 0))
  }

  // The text in front of the first semicolon.
  function Head(cs: Charset, sql: string): string {
    var stripped := Stripped(cs, sql);
    Trim(cs, stripped[..Semicolon(stripped, 0)])
  }

  method TextIsReadable(cs: Charset, sql: string) returns (r: bool)
    ensures r == Readable(cs, sql)
  {
    var stripped := Stripped(cs, sql);
    var semicolon := Semicolon(stripped, 0);
    if semicolon < |stripped| && Trim(cs, stripped[semicolon + 1..]) != "" {
      return false;
    }
    var head := Trim(cs, stripped[..semicolon]);
    if head == "" {
      return false;
    }
    if LockingRead(cs, head) {
      return false;
    }
    var words := Depth0Words(cs, head);
    if words == None || words == Some([]) {
      return false;
    }
    if words.value[0] !in READABLE_LEAD {
      return false;
    }
    r := forall w :: w in words.value ==> w !in TOP_LEVEL_WRITE;
  }

  predicate Single(cs: Charset, stripped: string) {
    var semicolon := Semicolon(stripped, 0);
    semicolon == |stripped| || Trim(cs, stripped[semicolon + 1..]) == ""
  }

  predicate Readable(cs: Charset, sql: string) {
    var head := Head(cs, sql);
    var words := Words(cs, head);
    && Single(cs, Stripped(cs, sql))
    && head != ""
    && !LockingRead(cs, head)
    && words.Some? && words.value != []
    && words.value[0] in READABLE_LEAD
    && forall w :: w in words.value ==> w !in TOP_LEVEL_WRITE
  }

  // ---------------------------------------------------------------------------------------
  // What an accepted text cannot contain
  // ---------------------------------------------------------------------------------------

  lemma TrimLeftEmpty(cs: Charset, s: string)
    ensures TrimLeft(cs, s) == "" <==> forall k :: 0 <= k < |s| ==> IsSpace(cs, s[k])
  {
    if s != "" && IsSpace(cs, s[0]) {
      TrimLeftEmpty(cs, s[1..]);
      assert forall k :: 1 <= k < |s| ==> s[k] == s[1..][k - 1];
    }
  }

  lemma TrimRightEmpty(cs: Charset, s: string)
    ensures TrimRight(cs, s) == "" <==> forall k :: 0 <= k < |s| ==> IsSpace(cs, s[k])
  {
    if s != "" && IsSpace(cs, s[|s| - 1]) {
      TrimRightEmpty(cs, s[..|s| - 1]);
      assert forall k :: 0 <= k < |s| - 1 ==> s[k] == s[..|s| - 1][k];
    }
  }

  lemma TrimLeftHead(cs: Charset, s: string)
    ensures TrimLeft(cs, s) != "" ==> !IsSpace(cs, TrimLeft(cs, s)[0])
  {
  }

  lemma TrimEmptyIffSpaces(cs: Charset, s: string)
    ensures Trim(cs, s) == "" <==> forall k :: 0 <= k < |s| ==> IsSpace(cs, s[k])
  {
    TrimLeftEmpty(cs, s);
    TrimRightEmpty(cs, TrimLeft(cs, s));
    TrimLeftHead(cs, s);
  }

  lemma {:induction false} ReportedIsIn(cs: Charset, ps: seq<Piece>, k: nat, j: nat)
    requires k <= j < |ps| && Reported(ps, j)
    ensures Lower(cs, ps[j].text) in ReportedFrom(cs, ps, k)
    decreases j - k
  {
    if k < j {
      ReportedIsIn(cs, ps, k + 1, j);
    }
  }

  lemma {:induction false} FirstReported(cs: Charset, ps: seq<Piece>, k: nat) returns (j: nat)
    requires k <= |ps| && ReportedFrom(cs, ps, k) != []
    ensures k <= j < |ps| && Reported(ps, j) && Lower(cs, ps[j].text) == ReportedFrom(cs, ps, k)[0]
    ensures forall i :: k <= i < j ==> !Reported(ps, i)
    decreases |ps| - k
  {
    if Reported(ps, k) {
      j := k;
    } else {
      j := FirstReported(cs, ps, k + 1);
    }
  }

  // An accepted text is one statement in balanced pieces without a locking phrase; its first
  // reported word is select or with; and no word outside quotes and parentheses is a write keyword,
  // unless an opening parenthesis follows it directly.
  lemma DefaultDeny(cs: Charset, sql: string) returns (ps: seq<Piece>, first: nat)
    requires Readable(cs, sql)
    ensures var s := Stripped(cs, sql);
            forall k :: Semicolon(s, 0) < k < |s| ==> IsSpace(cs, s[k])
    ensures !LockingRead(cs, Head(cs, sql))
    ensures Good(cs, ps) && ShowAll(ps) == Head(cs, sql) && Balanced(ps)
    ensures first < |ps| && Reported(ps, first) && Lower(cs, ps[first].text) in {"select", "with"}
    ensures forall i :: 0 <= i < first ==> !Reported(ps, i)
    ensures forall k | 0 <= k < |ps| && ps[k].Word? ::
              && Depth(ps, k) == 0
              && Lower(cs, ps[k].text) in {"insert", "update", "delete", "replace", "merge", "into", "set"}
              ==> k + 1 < |ps| && ps[k + 1].Open?
  {
    var s := Stripped(cs, sql);
    var head := Head(cs, sql);
    if Semicolon(s, 0) < |s| {
      var tail := s[Semicolon(s, 0) + 1..];
      TrimEmptyIffSpaces(cs, tail);
      forall k | Semicolon(s, 0) < k < |s| ensures IsSpace(cs, s[k]) {
        assert s[k] == tail[k - Semicolon(s, 0) - 1];
      }
    }
    ps := Lex(cs, head, 0).value;
    assert head[0..] == head;
    ShowLex(cs, head, 0);
    first := FirstReported(cs, ps, 0);
    forall k | 0 <= k < |ps| && ps[k].Word? && Depth(ps, k) == 0 && Lower(cs, ps[k].text) in TOP_LEVEL_WRITE
      ensures k + 1 < |ps| && ps[k + 1].Open?
    {
      ReportedIff(ps, k);
      if Reported(ps, k) {
        ReportedIsIn(cs, ps, 0, k);
      }
    }
  }

  // The first reported word is select or with.
  predicate Led(cs: Charset, ps: seq<Piece>) {
    exists j :: 0 <= j < |ps| && Reported(ps, j) && Lower(cs, ps[j].text) in {"select", "with"}
                && forall i :: 0 <= i < j ==> !Reported(ps, i)
  }

  // Some reported word is a write keyword.
  predicate Writes(cs: Charset, ps: seq<Piece>) {
    exists k :: 0 <= k < |ps| && Reported(ps, k)
                && Lower(cs, ps[k].text) in {"insert", "update", "delete", "replace", "merge", "into", "set"}
  }

  // Conversely: one balanced statement led by select or with is accepted, unless it holds a
  // locking phrase or a write keyword among its reported words.
  lemma AcceptedIff(cs: Charset, sql: string, ps: seq<Piece>)
    requires Good(cs, ps) && ShowAll(ps) == Head(cs, sql) && Balanced(ps)
    ensures Readable(cs, sql) <==>
            Single(cs, Stripped(cs, sql)) && !LockingRead(cs, Head(cs, sql)) && Led(cs, ps) && !Writes(cs, ps)
  {
    var head := Head(cs, sql);
    assert head[0..] == head;
    LexShow(cs, head, 0, ps);
    LedIff(cs, ps);
    WritesIff(cs, ps);
    assert head == "" ==> ps == [];
  }

  lemma LedIff(cs: Charset, ps: seq<Piece>)
    ensures Led(cs, ps) <==> ReportedFrom(cs, ps, 0) != [] && ReportedFrom(cs, ps, 0)[0] in READABLE_LEAD
  {
    if Led(cs, ps) {
      var j :| 0 <= j < |ps| && Reported(ps, j) && Lower(cs, ps[j].text) in READABLE_LEAD
               && forall i :: 0 <= i < j ==> !Reported(ps, i);
      ReportedIsIn(cs, ps, 0, j);
      var k := FirstReported(cs, ps, 0);
      assert k == j;
    } else if ReportedFrom(cs, ps, 0) != [] {
      var k := FirstReported(cs, ps, 0);
    }
  }

  lemma WritesIff(cs: Charset, ps: seq<Piece>)
    ensures Writes(cs, ps) <==> exists w :: w in ReportedFrom(cs, ps, 0) && w in TOP_LEVEL_WRITE
  {
    if Writes(cs, ps) {
      var k :| 0 <= k < |ps| && Reported(ps, k) && Lower(cs, ps[k].text) in TOP_LEVEL_WRITE;
      ReportedIsIn(cs, ps, 0, k);
    }
    if w :| w in ReportedFrom(cs, ps, 0) && w in TOP_LEVEL_WRITE {
      var k := ReportedAt(cs, ps, 0, w);
    }
  }

  lemma {:induction false} ReportedAt(cs: Charset, ps: seq<Piece>, k: nat, w: string) returns (j: nat)
    requires k <= |ps| && w in ReportedFrom(cs, ps, k)
    ensures k <= j < |ps| && Reported(ps, j) && Lower(cs, ps[j].text) == w
    decreases |ps| - k
  {
    if Reported(ps, k) && Lower(cs, ps[k].text) == w {
      j := k;
    } else {
      j := ReportedAt(cs, ps, k + 1, w);
    }
  }

  // The words of a phrase stand at the positions `at`, with nothing but white space, and some of
  // it, between one word and the next, and with a word boundary behind the last.
  predicate Gap(cs: Charset, s: string, i: nat, k: nat) {
    i < k <= |s| && forall m :: i <= m < k ==> IsSpace(cs, s[m])
  }

  predicate StandsAt(cs: Charset, s: string, words: seq<string>, at: seq<nat>) {
    && |at| == |words| > 0
    && (forall k :: 0 <= k < |at| ==> MatchesAt(cs, s, at[k], words[k]))
    && (forall k :: 0 <= k < |at| - 1 ==> Gap(cs, s, at[k] + |words[k]|, at[k + 1]))
    && Boundary(cs, s, at[|at| - 1] + |words[|at| - 1]|)
  }

  lemma {:induction false} StandingIsFound(cs: Charset, s: string, words: seq<string>, at: seq<nat>)
    requires StandsAt(cs, s, words, at)
    ensures PhraseTail(cs, s, at[0], words)
    decreases |words|
  {
    if |words| > 1 {
      assert Gap(cs, s, at[0] + |words[0]|, at[0 + 1]);
      StandingIsFound(cs, s, words[1..], at[1..]);
    }
  }

  lemma {:induction false} FoundIsStanding(cs: Charset, s: string, i: nat, words: seq<string>) returns (at: seq<nat>)
    requires PhraseTail(cs, s, i, words)
    ensures StandsAt(cs, s, words, at) && at[0] == i
    decreases |words|
  {
    if |words| == 1 {
      at := [i];
    } else {
      var j := i + |words[0]|;
      var k :| j < k <= |s| && (forall m :: j <= m < k ==> IsSpace(cs, s[m])) && PhraseTail(cs, s, k, words[1..]);
      var rest := FoundIsStanding(cs, s, k, words[1..]);
      at := [i] + rest;
    }
  }

  ghost predicate Stands(cs: Charset, s: string, words: seq<string>) {
    exists at :: StandsAt(cs, s, words, at) && Boundary(cs, s, at[0])
  }

  lemma LockingIffSome(cs: Charset, s: string)
    ensures LockingRead(cs, s) <==> exists p :: 0 <= p < |LOCKING| && Stands(cs, s, LOCKING[p])
  {
    if LockingRead(cs, s) {
      var i, p :| 0 <= i <= |s| && 0 <= p < |LOCKING| && PhraseAt(cs, s, i, LOCKING[p]);
      var at := FoundIsStanding(cs, s, i, LOCKING[p]);
      assert StandsAt(cs, s, LOCKING[p], at) && Boundary(cs, s, at[0]);
      assert Stands(cs, s, LOCKING[p]);
    }
    forall p, at | 0 <= p < |LOCKING| && StandsAt(cs, s, LOCKING[p], at) && Boundary(cs, s, at[0])
      ensures LockingRead(cs, s)
    {
      StandingIsFound(cs, s, LOCKING[p], at);
      assert PhraseAt(cs, s, at[0], LOCKING[p]);
    }
  }

  // A text is refused as a locking read exactly when one of the three phrases stands in it.
  lemma LockingReadIff(cs: Charset, s: string)
    ensures LockingRead(cs, s) <==>
            || Stands(cs, s, ["for", "update"])
            || Stands(cs, s, ["for", "share"])
            || Stands(cs, s, ["lock", "in", "share", "mode"])
  {
    hide Stands;
    LockingIffSome(cs, s);
    assert LOCKING[0] == ["for", "update"] && LOCKING[1] == ["for", "share"];
    assert LOCKING[2] == ["lock", "in", "share", "mode"];
  }
}
