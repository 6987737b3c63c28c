// What removing comments does to a text, said by the text's parts and not by how they are found.

module SqlComments {
  import opened Basics
  import opened SqlText
  import opened SqlReadable

  predicate At(s: string, i: nat, two: string)
    requires |two| == 2
  {
    i + 2 <= |s| && s[i] == two[0] && s[i + 1] == two[1]
  }

  predicate Holds(s: string, two: string)
    requires |two| == 2
  {
    exists i: nat :: i < |s| && At(s, i, two)
  }

  // No comment starts in the text.
  predicate Clean(s: string) {
    !Holds(s, "/*") && !Holds(s, "--")
  }

  function Strip(s: string): string { StripComments(s, 0) }

  // ---------------------------------------------------------------------------------------
  // Only what follows matters
  // ---------------------------------------------------------------------------------------

  lemma {:induction false} BlockEndShift(s: string, i: nat, t: string, j: nat)
    requires i <= |s| && j <= |t| && s[i..] == t[j..]
    ensures BlockEnd(s, i).Some? <==> BlockEnd(t, j).Some?
    ensures BlockEnd(s, i).Some? ==> BlockEnd(s, i).value - i == BlockEnd(t, j).value - j
    decreases |s| - i
  {
    assert |s| - i == |t| - j;
    if i + 2 <= |s| {
      assert s[i] == s[i..][0] == t[j] && s[i + 1] == s[i..][1] == t[j + 1];
      assert s[i + 1..] == s[i..][1..] == t[j + 1..];
      BlockEndShift(s, i + 1, t, j + 1);
    }
  }

  lemma {:induction false} LineEndShift(s: string, i: nat, t: string, j: nat)
    requires i <= |s| && j <= |t| && s[i..] == t[j..]
    ensures LineEnd(s, i) - i == LineEnd(t, j) - j
    decreases |s| - i
  {
    assert |s| - i == |t| - j;
    if i < |s| {
      assert s[i] == s[i..][0] == t[j];
      assert s[i + 1..] == s[i..][1..] == t[j + 1..];
      LineEndShift(s, i + 1, t, j + 1);
    }
  }

  lemma CommentEndShift(s: string, i: nat, t: string, j: nat)
    requires i < |s| && j < |t| && s[i..] == t[j..]
    ensures CommentEnd(s, i).Some? <==> CommentEnd(t, j).Some?
    ensures CommentEnd(s, i).Some? ==> CommentEnd(s, i).value - i == CommentEnd(t, j).value - j
  {
    assert |s| - i == |t| - j && s[i] == s[i..][0] == t[j];
    if i + 1 < |s| {
      assert s[i + 1] == s[i..][1] == t[j + 1];
      assert s[i + 2..] == s[i..][2..] == t[j + 2..];
      BlockEndShift(s, i + 2, t, j + 2);
      LineEndShift(s, i + 2, t, j + 2);
    }
  }

  lemma SameTail(s: string, i: nat, t: string, j: nat, d: nat)
    requires i + d <= |s| && j <= |t| && s[i..] == t[j..]
    ensures j + d <= |t| && s[i + d..] == t[j + d..]
  {
    assert |s| - i == |t| - j;
    assert s[i + d..] == s[i..][d..] && t[j + d..] == t[j..][d..];
  }

  lemma {:induction false} StripShift(s: string, i: nat, t: string, j: nat)
    requires i <= |s| && j <= |t| && s[i..] == t[j..]
    ensures StripComments(s, i) == StripComments(t, j)
    decreases |s| - i
  {
    hide CommentEnd;
    SameTail(s, i, t, j, 0);
    assert |s| - i == |t| - j;
    if i < |s| {
      CommentEndShift(s, i, t, j);
      assert s[i] == s[i..][0] == t[j];
      var d := if CommentEnd(s, i).Some? then CommentEnd(s, i).value - i else 1;
      SameTail(s, i, t, j, d);
      StripShift(s, i + d, t, j + d);
    }
  }

  // ---------------------------------------------------------------------------------------
  // The four laws
  // ---------------------------------------------------------------------------------------

  // Characters at which no comment starts stay.
  lemma {:induction false} Plain(a: string, rest: string)
    requires forall i: nat :: i < |a| ==> !At(a + rest, i, "/*") && !At(a + rest, i, "--")
    ensures Strip(a + rest) == a + Strip(rest)
    decreases |a|
  {
    var s := a + rest;
    if a == "" {
      assert s == rest;
    } else {
      assert !At(s, 0, "/*") && !At(s, 0, "--");
      var t := a[1..] + rest;
      assert s[1..] == t[0..];
      StripShift(s, 1, t, 0);
      forall i: nat | i < |a[1..]| ensures !At(t, i, "/*") && !At(t, i, "--") {
        assert !At(s, i + 1, "/*") && !At(s, i + 1, "--");
      }
      Plain(a[1..], rest);
      assert [s[0]] + (a[1..] + Strip(rest)) == a + Strip(rest);
    }
  }

  // A text without openers is left as it is.
  lemma CleanStays(s: string)
    requires Clean(s)
    ensures Strip(s) == s
  {
    assert s + "" == s;
    Plain(s, "");
  }

  lemma {:induction false} BlockEndIs(s: string, i: nat, e: nat)
    requires i <= e && At(s, e, "*/") && forall k: nat :: i <= k < e ==> !At(s, k, "*/")
    ensures BlockEnd(s, i) == Some(e + 2)
    decreases e - i
  {
    if i < e {
      assert !At(s, i, "*/");
      BlockEndIs(s, i + 1, e);
    }
  }

  lemma {:induction false} NoBlockEnd(s: string, i: nat)
    requires forall k: nat :: i <= k < |s| ==> !At(s, k, "*/")
    ensures BlockEnd(s, i) == None
    decreases |s| - i
  {
    if i + 2 <= |s| {
      assert !At(s, i, "*/");
      NoBlockEnd(s, i + 1);
    }
  }

  lemma {:induction false} LineEndIs(s: string, i: nat, e: nat)
    requires i <= e <= |s| && (e == |s| || s[e] == '\n') && forall k :: i <= k < e ==> s[k] != '\n'
    ensures LineEnd(s, i) == e
    decreases e - i
  {
    if i < e {
      LineEndIs(s, i + 1, e);
    }
  }

  // A closed block is one space, up to its first "*/".
  lemma BlockIsSpace(c: string, b: string)
    requires !Holds(c, "*/")
    ensures Strip("/*" + c + "*/" + b) == " " + Strip(b)
  {
    var s, e := "/*" + c + "*/" + b, |c| + 2;
    forall k: nat | 2 <= k < e ensures !At(s, k, "*/") {
      assert s[k] == c[k - 2] && (k < e - 1 ==> s[k + 1] == c[k - 1]);
      assert !At(c, k - 2, "*/");
    }
    BlockEndIs(s, 2, e);
    assert s[e + 2..] == b[0..];
    StripShift(s, e + 2, b, 0);
  }

  // A line comment is one space, up to the newline, which stays.
  lemma LineIsSpace(c: string, b: string)
    requires '\n' !in c && (b == "" || b[0] == '\n')
    ensures Strip("--" + c + b) == " " + Strip(b)
  {
    var s, e := "--" + c + b, |c| + 2;
    assert forall k :: 2 <= k < e ==> s[k] == c[k - 2];
    LineEndIs(s, 2, e);
    assert s[e..] == b[0..];
    StripShift(s, e, b, 0);
  }

  // A block that is not closed is none: its slash stays and the rest is read on from the star.
  lemma OpenBlockStays(c: string)
    requires !Holds(c, "*/")
    ensures Strip("/*" + c) == "/" + Strip("*" + c)
  {
    var s, t := "/*" + c, "*" + c;
    forall k: nat | 2 <= k < |s| ensures !At(s, k, "*/") {
      assert !At(c, k - 2, "*/");
      assert s[k] == c[k - 2] && (k + 1 < |s| ==> s[k + 1] == c[k - 1]);
    }
    NoBlockEnd(s, 2);
    assert s[1..] == t[0..];
    StripShift(s, 1, t, 0);
  }

  // ---------------------------------------------------------------------------------------
  // A text and its parts
  // ---------------------------------------------------------------------------------------

  // `Slash` is one that stands in front of a star and opens nothing.
  datatype Part = Code(text: string) | Block(body: string) | Line(body: string) | Slash

  function Show(p: Part): string {
    match p
    case Code(text) => text
    case Block(body) => "/*" + body + "*/"
    case Line(body) => "--" + body
    case Slash => "/"
  }

  function ShowAll(ps: seq<Part>): string {
    if ps == [] then "" else Show(ps[0]) + ShowAll(ps[1..])
  }

  // What is left of it.
  function Kept(p: Part): string {
    match p
    case Code(text) => text
    case Block(_) => " "
    case Line(_) => " "
    case Slash => "/"
  }

  function KeptAll(ps: seq<Part>): string {
    if ps == [] then "" else Kept(ps[0]) + KeptAll(ps[1..])
  }

  // The part reads as such in front of `rest`.
  predicate Fits(p: Part, rest: string) {
    match p
    case Code(text) => forall i: nat :: i < |text| ==> !At(text + rest, i, "/*") && !At(text + rest, i, "--")
    case Block(body) => !Holds(body, "*/")
    case Line(body) => '\n' !in body && (rest == "" || rest[0] == '\n')
    case Slash => rest != "" && rest[0] == '*' && !Holds(rest[1..], "*/")
  }

  predicate Good(ps: seq<Part>) {
    ps == [] || (Fits(ps[0], ShowAll(ps[1..])) && Good(ps[1..]))
  }

  // Removing the comments of a text leaves its code and one space for each comment.
  lemma {:induction false} StripKeeps(ps: seq<Part>)
    requires Good(ps)
    ensures Strip(ShowAll(ps)) == KeptAll(ps)
  {
    if ps != [] {
      var rest := ShowAll(ps[1..]);
      StripKeeps(ps[1..]);
      match ps[0]
      case Code(text) => Plain(text, rest);
      case Block(body) => BlockIsSpace(body, rest);
      case Line(body) => LineIsSpace(body, rest);
      case Slash =>
        OpenBlockStays(rest[1..]);
        assert "/" + rest == "/*" + rest[1..] && "*" + rest[1..] == rest;
    }
  }

  // Every text has parts.
  lemma {:induction false} EveryText(s: string) returns (ps: seq<Part>)
    ensures Good(ps) && ShowAll(ps) == s
    decreases |s|
  {
    if s == "" {
      ps := [];
    } else {
      var p, rest := FirstPart(s);
      var more := EveryText(rest);
      ps := [p] + more;
      assert ps[1..] == more;
    }
  }

  lemma FirstPart(s: string) returns (p: Part, rest: string)
    requires s != ""
    ensures Show(p) + rest == s && |rest| < |s| && Fits(p, rest)
  {
    if At(s, 0, "/*") {
      p, rest := FirstBlock(s);
    } else if At(s, 0, "--") {
      p, rest := FirstLine(s);
    } else {
      p, rest := Code([s[0]]), s[1..];
      assert [s[0]] + s[1..] == s;
    }
  }

  lemma FirstBlock(s: string) returns (p: Part, rest: string)
    requires At(s, 0, "/*")
    ensures Show(p) + rest == s && |rest| < |s| && Fits(p, rest)
  {
    var c := s[2..];
    assert s == "/*" + c;
    if Holds(c, "*/") {
      var e := FirstAt(c, "*/");
      p, rest := Block(c[..e]), c[e + 2..];
      assert c == c[..e] + "*/" + c[e + 2..];
      assert forall i: nat :: i < e && At(c[..e], i, "*/") ==> At(c, i, "*/");
    } else {
      p, rest := Slash, s[1..];
      assert s[1..][1..] == c;
    }
  }

  lemma FirstLine(s: string) returns (p: Part, rest: string)
    requires At(s, 0, "--")
    ensures Show(p) + rest == s && |rest| < |s| && Fits(p, rest)
  {
    var c := s[2..];
    var e := FirstNewline(c);
    p, rest := Line(c[..e]), c[e..];
    assert s == "--" + c && c == c[..e] + c[e..];
  }

  lemma FirstAt(s: string, two: string) returns (e: nat)
    requires |two| == 2 && Holds(s, two)
    ensures At(s, e, two) && forall i: nat :: i < e ==> !At(s, i, two)
  {
    e := 0;
    while !At(s, e, two)
      invariant forall i: nat :: i < e ==> !At(s, i, two)
      invariant e <= |s|
      decreases |s| - e
    {
      e := e + 1;
    }
  }

  lemma FirstNewline(s: string) returns (e: nat)
    ensures e <= |s| && (e == |s| || s[e] == '\n') && '\n' !in s[..e]
  {
    e := 0;
    while e < |s| && s[e] != '\n'
      invariant e <= |s| && '\n' !in s[..e]
    {
      assert s[..e + 1] == s[..e] + [s[e]];
      e := e + 1;
    }
  }

  // ---------------------------------------------------------------------------------------
  // One statement
  // ---------------------------------------------------------------------------------------

  // White space is taken from both ends, and nothing else.
  lemma TrimIsMiddle(cs: Charset, s: string) returns (l: nat, r: nat)
    ensures l <= r <= |s| && Trim(cs, s) == s[l..r]
    ensures forall k :: 0 <= k < l || r <= k < |s| ==> IsSpace(cs, s[k])
  {
    l := LeftEnd(cs, s);
    var t := TrimLeft(cs, s);
    var n := RightEnd(cs, t);
    r := l + n;
    forall k | 0 <= k < l || r <= k < |s| ensures IsSpace(cs, s[k]) {
      if k >= r {
        assert s[k] == t[k - l];
      }
    }
  }

  lemma {:induction false} LeftEnd(cs: Charset, s: string) returns (l: nat)
    ensures l <= |s| && TrimLeft(cs, s) == s[l..] && forall k :: 0 <= k < l ==> IsSpace(cs, s[k])
  {
    if s != "" && IsSpace(cs, s[0]) {
      var m := LeftEnd(cs, s[1..]);
      l := m + 1;
      assert forall k :: 1 <= k < l ==> s[k] == s[1..][k - 1];
    } else {
      l := 0;
    }
  }

  lemma {:induction false} RightEnd(cs: Charset, s: string) returns (r: nat)
    ensures r <= |s| && TrimRight(cs, s) == s[..r] && forall k :: r <= k < |s| ==> IsSpace(cs, s[k])
  {
    if s != "" && IsSpace(cs, s[|s| - 1]) {
      r := RightEnd(cs, s[..|s| - 1]);
    } else {
      r := |s|;
    }
  }

  // A semicolon with something behind it that is not white space.
  predicate TwoStatements(cs: Charset, kept: string) {
    exists p, q :: 0 <= p < q < |kept| && kept[p] == ';' && !IsSpace(cs, kept[q])
  }

  lemma SingleIff(cs: Charset, kept: string)
    ensures Single(cs, Trim(cs, kept)) <==> !TwoStatements(cs, kept)
  {
    var l, r := TrimIsMiddle(cs, kept);
    var t := kept[l..r];
    var semicolon := Semicolon(t, 0);
    if semicolon < |t| {
      var tail := t[semicolon + 1..];
      TrimEmptyIffSpaces(cs, tail);
      assert forall k :: 0 <= k < |tail| ==> tail[k] == kept[l + semicolon + 1 + k];
      assert kept[l + semicolon] == ';';
    }
    forall p, q | 0 <= p < q < |kept| && kept[p] == ';' && !IsSpace(cs, kept[q])
      ensures semicolon < |t| && !Single(cs, t)
    {
      assert l <= p < r && l <= q < r && t[p - l] == ';' && t[q - l] == kept[q];
      var tail := t[semicolon + 1..];
      TrimEmptyIffSpaces(cs, tail);
      assert tail[q - l - semicolon - 1] == kept[q];
    }
  }

  // Over the text as it was written: in front of or behind comments, a second statement is seen; and
  // the decision is that on the code with its comments taken for spaces.
  lemma SecondStatementIsSeen(cs: Charset, ps: seq<Part>)
    requires Good(ps)
    ensures Stripped(cs, ShowAll(ps)) == Trim(cs, KeptAll(ps))
    ensures TwoStatements(cs, KeptAll(ps)) ==> !Readable(cs, ShowAll(ps))
    ensures Readable(cs, ShowAll(ps)) ==> Single(cs, Trim(cs, KeptAll(ps))) && !TwoStatements(cs, KeptAll(ps))
  {
    StripKeeps(ps);
    SingleIff(cs, KeptAll(ps));
  }

  // A minus or a slash alone opens nothing.
  lemma OneSignIsCode(a: string, sign: char, b: string)
    requires (sign == '-' || sign == '/') && '-' !in a + b && '/' !in a + b && (sign == '/' ==> b == "" || b[0] != '*')
    ensures Strip(a + [sign] + b) == a + [sign] + b
  {
    var s := a + [sign] + b;
    forall i: nat | i < |s| ensures !At(s, i, "/*") && !At(s, i, "--") {
      assert i < |a| ==> s[i] == (a + b)[i];
      assert i > |a| ==> s[i] == (a + b)[i - 1];
      assert i == |a| && i + 1 < |s| ==> s[i + 1] == b[0] == (a + b)[i];
    }
    CleanStays(s);
  }
}
