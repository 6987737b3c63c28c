// The log file handler: one current file, and a history of files named by UTC day and number.

module LogNames {
  import opened Basics
  import opened Calendar

  predicate IsDigit(c: char) { '0' <= c <= '9' }

  predicate AllDigits(s: string) { forall i :: 0 <= i < |s| ==> IsDigit(s[i]) }

  // str(n)
  function Decimal(n: nat): string {
    if n < 10 then [Digit(n)] else Decimal(n / 10) + [Digit(n % 10)]
  }

  function Parse(s: string): nat {
    if s == "" || !IsDigit(s[|s| - 1]) then 0 else 10 * Parse(s[..|s| - 1]) + (s[|s| - 1] as int - '0' as int)
  }

  lemma {:induction false} DecimalParses(n: nat)
    ensures Decimal(n) != "" && AllDigits(Decimal(n)) && Parse(Decimal(n)) == n
  {
    var s := Decimal(n);
    if n >= 10 {
      DecimalParses(n / 10);
      assert s[..|s| - 1] == Decimal(n / 10);
    } else {
      assert s[..0] == "";
    }
  }

  // app.log.2026-10-19, app.log.2026-10-19.1, ...
  function Suffix(n: nat): string {
    if n == 0 then "" else "." + Decimal(n)
  }

  function Name(base: string, iso: string, n: nat): string {
    base + "." + iso + Suffix(n)
  }

  predicate IsoShape(s: string) {
    |s| == 10 && s[4] == '-' && s[7] == '-'
    && AllDigits(s[..4]) && AllDigits(s[5..7]) && AllDigits(s[8..])
  }

  predicate SuffixShape(s: string) {
    s == "" || (s[0] == '.' && |s| > 1 && AllDigits(s[1..]))
  }

  // The handler's pattern: the date of a history file, if the whole name is one.
  function DateIn(base: string, name: string): Option<string> {
    var k := |base| + 1;
    if |name| >= k + 10 && name[..k] == base + "." && IsoShape(name[k..k + 10]) && SuffixShape(name[k + 10..])
    then Some(name[k..k + 10])
    else None
  }

  lemma IsoHasShape(d: Date)
    requires Calendar.Valid(d) && d.year < 10000
    ensures IsoShape(Iso(d))
  {
    var s := Iso(d);
    assert s[..4] == Pad4(d.year) && s[5..7] == Pad2(d.month) && s[8..] == Pad2(d.day);
  }

  lemma SuffixHasShape(n: nat)
    ensures SuffixShape(Suffix(n))
  {
    DecimalParses(n);
    assert ("." + Decimal(n))[1..] == Decimal(n);
  }

  lemma NameParts(base: string, iso: string, n: nat)
    requires |iso| == 10
    ensures |Name(base, iso, n)| >= |base| + 11
    ensures Name(base, iso, n)[..|base| + 1] == base + "."
    ensures Name(base, iso, n)[|base| + 1..|base| + 11] == iso
    ensures Name(base, iso, n)[|base| + 11..] == Suffix(n)
  {
  }

  lemma NameMatches(base: string, day: nat, n: nat)
    requires 1 <= day <= LAST_ORDINAL
    ensures DateIn(base, Name(base, IsoOf(day), n)) == Some(IsoOf(day))
  {
    NameParts(base, IsoOf(day), n);
    YearInRange(day);
    IsoHasShape(DateOf(day));
    SuffixHasShape(n);
  }

  lemma SuffixInjective(m: nat, n: nat)
    ensures Suffix(m) == Suffix(n) ==> m == n
  {
    DecimalParses(m);
    DecimalParses(n);
    assert m > 0 ==> Suffix(m)[1..] == Decimal(m);
    assert n > 0 ==> Suffix(n)[1..] == Decimal(n);
  }

  // Different days or numbers make different names.
  lemma NameInjective(base: string, day: nat, m: nat, day': nat, n: nat)
    requires 1 <= day <= LAST_ORDINAL && 1 <= day' <= LAST_ORDINAL
    ensures Name(base, IsoOf(day), m) == Name(base, IsoOf(day'), n) ==> day == day' && m == n
  {
    NameParts(base, IsoOf(day), m);
    NameParts(base, IsoOf(day'), n);
    IsoOfOrder(day, day');
    SuffixInjective(m, n);
  }

  // A name is taken for a history file exactly if it is the base name, a date and perhaps a number.
  lemma DateInIff(base: string, name: string, date: string)
    ensures DateIn(base, name) == Some(date) <==>
      && IsoShape(date)
      && (name == base + "." + date
          || (exists digits :: digits != "" && AllDigits(digits) && name == base + "." + date + "." + digits))
  {
    var k := |base| + 1;
    if DateIn(base, name) == Some(date) {
      var rest := name[k + 10..];
      assert name == base + "." + date + rest;
      if rest != "" {
        assert rest == "." + rest[1..];
        assert name == base + "." + date + "." + rest[1..];
      }
    }
    if IsoShape(date) {
      if name == base + "." + date {
        assert name[k..k + 10] == date && name[k + 10..] == "";
      }
      forall digits | digits != "" && AllDigits(digits) && name == base + "." + date + "." + digits
        ensures DateIn(base, name) == Some(date)
      {
        assert name[..k] == base + "." && name[k..k + 10] == date && name[k + 10..] == "." + digits;
        assert name[k + 10..][1..] == digits;
      }
    }
  }

  // As the file system shows them.
  lemma NamesAsWritten()
    ensures Name("app.log", "2026-10-19", 0) == "app.log.2026-10-19"
    ensures Name("app.log", "2026-10-19", 1) == "app.log.2026-10-19.1"
    ensures Name("app.log", "2026-10-19", 12) == "app.log.2026-10-19.12"
    ensures Decimal(9) == "9" && Decimal(10) == "10"
  {
    assert Decimal(12) == Decimal(1) + "2" && Decimal(1) == "1";
    assert Decimal(10) == Decimal(1) + "0";
  }

  lemma BaseIsNoHistory(base: string)
    ensures DateIn(base, base) == None
  {
  }
}

// The handler's bookkeeping with files known by their day and number.
module LogRotation {
  import opened Basics
  import opened Calendar

  // `at` is the last clock reading of the handler before it wrote the record.
  datatype Record = Record(text: nat, chars: nat, bytes: nat, at: Clock)

  // Beyond this many days the cutoff would fall before year 1.
  type Retention = n: int | n < EPOCH_ORDINAL

  datatype Key = Key(day: nat, number: nat)

  type Files = map<Key, seq<Record>>

  datatype Log = Log(rolloverAt: int, current: Option<seq<Record>>, files: Files)

  // File size: every record ends with a newline.
  function Size(records: seq<Record>): nat {
    if records == [] then 0 else Size(records[..|records| - 1]) + records[|records| - 1].bytes + 1
  }

  function Content(h: Log): seq<Record> {
    if h.current.Some? then h.current.value else []
  }

  // computeRollover: the next UTC midnight.
  function NextMidnight(t: Clock): int {
    (t / DAY + 1) * DAY
  }

  function KeysBelow(day: nat, n: nat): set<Key> {
    set k | 0 <= k < n :: Key(day, k)
  }

  lemma OneKeyLess(files: Files, day: nat, n: nat)
    requires Key(day, n) in files
    ensures |files.Keys - KeysBelow(day, n + 1)| < |files.Keys - KeysBelow(day, n)|
  {
    assert files.Keys - KeysBelow(day, n) == (files.Keys - KeysBelow(day, n + 1)) + {Key(day, n)};
  }

  // The first number of the day that is not taken; the search ends because the files do.
  function FirstFree(files: Files, day: nat, n: nat): (m: nat)
    ensures n <= m && Key(day, m) !in files
    ensures forall k :: n <= k < m ==> Key(day, k) in files
    decreases |files.Keys - KeysBelow(day, n)|
  {
    if Key(day, n) !in files then n
    else
      OneKeyLess(files, day, n);
      FirstFree(files, day, n + 1)
  }

  predicate ValidLog(h: Log) {
    h.rolloverAt % DAY == 0 && DAY <= h.rolloverAt <= (LAST_ORDINAL - EPOCH_ORDINAL + 1) * DAY
  }

  // The day the current file belongs to.
  function OpenDay(h: Log): (n: nat)
    requires ValidLog(h)
    ensures EPOCH_ORDINAL <= n <= LAST_ORDINAL
  {
    DayOf(h.rolloverAt - DAY)
  }

  function RolloverDay(h: Log, t: Clock): (n: nat)
    requires ValidLog(h)
    ensures EPOCH_ORDINAL <= n <= LAST_ORDINAL
  {
    if t >= h.rolloverAt then DayOf(h.rolloverAt - DAY) else DayOf(t)
  }

  function Archive(h: Log, day: nat): Log {
    if h.current.None? then h
    else h.(current := None, files := h.files[Key(day, FirstFree(h.files, day, 0)) := h.current.value])
  }

  function Since(files: Files, cutoff: int): Files {
    map k | k in files && k.day >= cutoff :: files[k]
  }

  function DeleteExpired(retention: Retention, t: Clock, files: Files): Files {
    if retention <= 0 then files else Since(files, DayOf(t) - retention)
  }

  // doRollover
  function Rollover(retention: Retention, h: Log, t: Clock): Log
    requires ValidLog(h)
  {
    var archived := Archive(h, RolloverDay(h, t));
    Log(if t >= h.rolloverAt then NextMidnight(t) else h.rolloverAt,
        archived.current, DeleteExpired(retention, t, archived.files))
  }

  // shouldRollover
  predicate Due(maxBytes: int, h: Log, t: Clock, chars: nat) {
    || t >= h.rolloverAt
    || (maxBytes > 0 && Size(Content(h)) > 0 && Size(Content(h)) + chars + 1 >= maxBytes)
  }

  function Append(h: Log, r: Record): Log {
    h.(current := Some(Content(h) + [r]))
  }

  // emit, with two clock readings: `t1` when the handler asks whether to roll over, `t2` when it
  // does.
  function Emit(maxBytes: int, retention: Retention, h: Log, t1: Clock, t2: Clock, text: nat, chars: nat,
      bytes: nat): Log
    requires ValidLog(h)
  {
    if Due(maxBytes, h, t1, chars)
    then Append(Rollover(retention, h, t2), Record(text, chars, bytes, t2))
    else Append(h, Record(text, chars, bytes, t1))
  }

  // ---------------------------------------------------------------------------------------
  // The history as a sequence
  // ---------------------------------------------------------------------------------------

  datatype Piece = Piece(key: Key, records: seq<Record>)

  predicate Earlier(p: Key, q: Key) {
    p.day < q.day || (p.day == q.day && p.number < q.number)
  }

  predicate Sorted(ps: seq<Piece>) {
    forall i, j :: 0 <= i < j < |ps| ==> Earlier(ps[i].key, ps[j].key)
  }

  // `ps` lists the history files in (date, number) order.
  ghost predicate History(files: Files, ps: seq<Piece>) {
    && Sorted(ps)
    && (forall p :: p in ps ==> p.key in files && files[p.key] == p.records)
    && (forall k :: k in files ==> Piece(k, files[k]) in ps)
  }

  // Numbers of a day start at 0 and leave no gap.
  ghost predicate Contiguous(ps: seq<Piece>) {
    forall i :: 0 <= i < |ps| ==> Follows(ps, i)
  }

  ghost predicate Follows(ps: seq<Piece>, i: nat)
    requires i < |ps|
  {
    ps[i].key.number == 0 || (i > 0 && ps[i - 1].key == Key(ps[i].key.day, ps[i].key.number - 1))
  }

  function Flatten(ps: seq<Piece>): seq<Record> {
    if ps == [] then [] else Flatten(ps[..|ps| - 1]) + ps[|ps| - 1].records
  }

  lemma {:induction false} SortedUnique(ps: seq<Piece>, qs: seq<Piece>)
    requires Sorted(ps) && Sorted(qs) && forall p :: p in ps <==> p in qs
    ensures ps == qs
    decreases |ps|
  {
    if ps == [] {
      if qs != [] { HeadIsIn(qs); }
    } else {
      var m, n := |ps| - 1, |qs| - 1;
      assert ps[m] in qs;
      assert qs[n] in ps;
      var i :| 0 <= i < |qs| && qs[i] == ps[m];
      var j :| 0 <= j < |ps| && ps[j] == qs[n];
      assert ps[m] == qs[n];
      var ps', qs' := ps[..m], qs[..n];
      forall p ensures p in ps' <==> p in qs' {
        WithoutLast(ps, p);
        WithoutLast(qs, p);
      }
      SortedUnique(ps', qs');
      assert ps == ps' + [ps[m]] && qs == qs' + [qs[n]];
    }
  }

  lemma HeadIsIn(ps: seq<Piece>)
    requires ps != []
    ensures ps[0] in ps
  {
  }

  lemma WithoutLast(ps: seq<Piece>, p: Piece)
    requires Sorted(ps) && ps != []
    ensures p in ps[..|ps| - 1] <==> p in ps && p != ps[|ps| - 1]
  {
    var ps' := ps[..|ps| - 1];
    if p in ps' {
      var i :| 0 <= i < |ps'| && ps'[i] == p;
      assert ps[i] == p && Earlier(ps[i].key, ps[|ps| - 1].key);
    }
    if p in ps && p != ps[|ps| - 1] {
      var i :| 0 <= i < |ps| && ps[i] == p;
      assert ps'[i] == p;
    }
  }

  // The files have one history only.
  lemma HistoryIsUnique(files: Files, ps: seq<Piece>, qs: seq<Piece>)
    requires History(files, ps) && History(files, qs)
    ensures ps == qs
  {
    forall p ensures p in ps <==> p in qs {
      if p in ps { assert Piece(p.key, files[p.key]) in qs; }
      if p in qs { assert Piece(p.key, files[p.key]) in ps; }
    }
    SortedUnique(ps, qs);
  }

  // ---------------------------------------------------------------------------------------
  // Archiving
  // ---------------------------------------------------------------------------------------

  function NextNumber(ps: seq<Piece>, day: nat): nat {
    if ps != [] && ps[|ps| - 1].key.day == day then ps[|ps| - 1].key.number + 1 else 0
  }

  // A piece has all its predecessors of the day.
  lemma {:induction false} Predecessor(ps: seq<Piece>, i: nat, k: nat)
    requires Contiguous(ps) && i < |ps| && k <= ps[i].key.number
    ensures exists j :: 0 <= j <= i && ps[j].key == Key(ps[i].key.day, k)
    decreases i
  {
    if k < ps[i].key.number {
      assert Follows(ps, i);
      Predecessor(ps, i - 1, k);
    }
  }

  lemma TakenBelow(files: Files, ps: seq<Piece>, day: nat, k: nat)
    requires History(files, ps) && Contiguous(ps) && k < NextNumber(ps, day)
    ensures Key(day, k) in files
  {
    Predecessor(ps, |ps| - 1, k);
    var j :| 0 <= j < |ps| && ps[j].key == Key(day, k);
    assert ps[j] in ps;
  }

  lemma TakenOnlyBelow(files: Files, ps: seq<Piece>, key: Key)
    requires History(files, ps) && key in files
    requires forall p :: p in ps ==> p.key.day <= key.day
    ensures key.number < NextNumber(ps, key.day)
  {
    assert Piece(key, files[key]) in ps;
    var i :| 0 <= i < |ps| && ps[i] == Piece(key, files[key]);
    assert ps[|ps| - 1] in ps;
    assert i == |ps| - 1 || Earlier(ps[i].key, ps[|ps| - 1].key);
  }

  // The free number the search finds is the next one of the day.
  lemma FreeIsNext(files: Files, ps: seq<Piece>, day: nat)
    requires History(files, ps) && Contiguous(ps)
    requires forall p :: p in ps ==> p.key.day <= day
    ensures FirstFree(files, day, 0) == NextNumber(ps, day)
  {
    var m, free := NextNumber(ps, day), FirstFree(files, day, 0);
    forall k | 0 <= k < m ensures Key(day, k) in files {
      TakenBelow(files, ps, day, k);
    }
    if Key(day, m) in files {
      TakenOnlyBelow(files, ps, Key(day, m));
    }
  }

  // Archiving puts the current file at the end of the history and overwrites nothing.
  lemma ArchiveAppends(h: Log, ps: seq<Piece>, day: nat)
    requires History(h.files, ps) && Contiguous(ps) && h.current.Some?
    requires forall p :: p in ps ==> p.key.day <= day
    ensures
      var p := Piece(Key(day, NextNumber(ps, day)), h.current.value);
      && p.key !in h.files
      && History(Archive(h, day).files, ps + [p]) && Contiguous(ps + [p])
  {
    FreeIsNext(h.files, ps, day);
    var p := Piece(Key(day, NextNumber(ps, day)), h.current.value);
    var qs := ps + [p];
    forall i, j | 0 <= i < j < |qs| ensures Earlier(qs[i].key, qs[j].key) {
      if j == |ps| {
        assert ps[i] in ps;
        assert i == |ps| - 1 || Earlier(ps[i].key, ps[|ps| - 1].key);
      }
    }
    assert qs[|ps|] == p;
    forall i | 0 <= i < |qs| ensures Follows(qs, i) {
      assert i < |ps| ==> Follows(ps, i);
    }
  }

  // ---------------------------------------------------------------------------------------
  // Retention
  // ---------------------------------------------------------------------------------------

  // The first piece that is not older than the cutoff.
  function KeptFrom(ps: seq<Piece>, cutoff: int, i: nat): (k: nat)
    requires i <= |ps|
    ensures i <= k <= |ps|
    ensures forall j :: i <= j < k ==> ps[j].key.day < cutoff
    ensures k < |ps| ==> ps[k].key.day >= cutoff
    decreases |ps| - i
  {
    if i == |ps| || ps[i].key.day >= cutoff then i else KeptFrom(ps, cutoff, i + 1)
  }

  lemma KeptPieces(ps: seq<Piece>, cutoff: int, p: Piece)
    requires Sorted(ps)
    ensures p in ps[KeptFrom(ps, cutoff, 0)..] <==> p in ps && p.key.day >= cutoff
  {
    var k := KeptFrom(ps, cutoff, 0);
    var qs := ps[k..];
    if p in qs {
      var i :| 0 <= i < |qs| && qs[i] == p;
      assert ps[k + i] == p;
      assert i == 0 || Earlier(ps[k].key, ps[k + i].key);
    }
    if p in ps && p.key.day >= cutoff {
      var i :| 0 <= i < |ps| && ps[i] == p;
      assert qs[i - k] == p;
    }
  }

  // Deletion takes away the oldest pieces and leaves the rest as it was.
  lemma DeletionKeepsSuffix(files: Files, ps: seq<Piece>, cutoff: int)
    requires History(files, ps) && Contiguous(ps)
    ensures History(Since(files, cutoff), ps[KeptFrom(ps, cutoff, 0)..]) && Contiguous(ps[KeptFrom(ps, cutoff, 0)..])
  {
    var k := KeptFrom(ps, cutoff, 0);
    var qs, left := ps[k..], Since(files, cutoff);
    SuffixSorted(ps, k);
    SuffixContiguous(ps, k);
    forall p | p in qs ensures p.key in left && left[p.key] == p.records {
      KeptPieces(ps, cutoff, p);
    }
    forall key | key in left ensures Piece(key, left[key]) in qs {
      KeptPieces(ps, cutoff, Piece(key, left[key]));
    }
  }

  lemma SuffixSorted(ps: seq<Piece>, k: nat)
    requires Sorted(ps) && k <= |ps|
    ensures Sorted(ps[k..])
  {
    var qs := ps[k..];
    forall i, j | 0 <= i < j < |qs| ensures Earlier(qs[i].key, qs[j].key) {
      assert qs[i] == ps[k + i] && qs[j] == ps[k + j];
    }
  }

  lemma SuffixContiguous(ps: seq<Piece>, k: nat)
    requires Contiguous(ps) && k <= |ps| && (0 < k < |ps| ==> ps[k - 1].key.day < ps[k].key.day)
    ensures Contiguous(ps[k..])
  {
    var qs := ps[k..];
    forall i | 0 <= i < |qs| ensures Follows(qs, i) {
      assert Follows(ps, k + i);
      assert qs[i] == ps[k + i];
      if i > 0 { assert qs[i - 1] == ps[k + i - 1]; }
    }
  }
}

// Whole runs of one process, with a clock that never goes back.
module LogRuns {
  import opened Basics
  import opened Calendar
  import opened LogRotation

  // `sameDay` stands for runs in which no handler starts over a file whose last write reached it on
  // another day than the record's clock reading.
  datatype Config = Config(maxBytes: int, retention: Retention, sameDay: bool)

  // `changed` is the current file's modification time, `pieces` the history in order, `emitted` all
  // records ever emitted, `dropped` those of deleted files.
  datatype System = System(h: Log, now: Clock, changed: Clock, pieces: seq<Piece>, emitted: seq<Record>,
      dropped: seq<Record>)

  datatype Action =
    | Write(t1: Clock, t2: Clock, wrote: Clock, text: nat, chars: nat, bytes: nat)   // in the file at `wrote`
    | Restart(t: Clock)       // a new process opens the same files

  predicate Enabled(cfg: Config, s: System, a: Action) {
    match a
    case Write(t1, t2, wrote, _, _, _) => s.now <= t1 <= t2 <= wrote
    case Restart(t) => s.now <= t && (cfg.sameDay ==> ChangedOnItsDay(s))
  }

  // The current file was last changed on the day of its last record.
  predicate ChangedOnItsDay(s: System) {
    Content(s.h) != [] ==> DayOf(s.changed) == DayOf(Content(s.h)[|Content(s.h)| - 1].at)
  }

  function Archived(s: System, day: nat): seq<Piece> {
    if s.h.current.None? then s.pieces
    else s.pieces + [Piece(Key(day, NextNumber(s.pieces, day)), s.h.current.value)]
  }

  function Cut(cfg: Config, ps: seq<Piece>, t: Clock): (k: nat)
    ensures k <= |ps|
  {
    if cfg.retention <= 0 then 0 else KeptFrom(ps, DayOf(t) - cfg.retention, 0)
  }

  function Rolled(cfg: Config, s: System, t: Clock): System
    requires ValidLog(s.h)
  {
    var ps := Archived(s, RolloverDay(s.h, t));
    var k := Cut(cfg, ps, t);
    System(Rollover(cfg.retention, s.h, t), t, s.changed, ps[k..], s.emitted, s.dropped + Flatten(ps[..k]))
  }

  function Written(s: System, r: Record, wrote: Clock): System {
    s.(h := Append(s.h, r), now := wrote, changed := wrote, emitted := s.emitted + [r])
  }

  // The handler's constructor: the next midnight after the file's last change, or after now.
  function Reopened(s: System, t: Clock): Log {
    s.h.(rolloverAt := NextMidnight(if Content(s.h) != [] then s.changed else t))
  }

  function Next(cfg: Config, s: System, a: Action): System
    requires Enabled(cfg, s, a) && ValidLog(s.h)
  {
    match a
    case Write(t1, t2, wrote, text, chars, bytes) =>
      if Due(cfg.maxBytes, s.h, t1, chars)
      then Written(Rolled(cfg, s, t2), Record(text, chars, bytes, t2), wrote)
      else Written(s, Record(text, chars, bytes, t1), wrote)
    case Restart(t) => s.(h := Reopened(s, t), now := t)
  }

  // The auxiliary sequences follow the handler: its own state is the one `emit` computes.
  lemma NextEmits(cfg: Config, s: System, a: Action)
    requires Enabled(cfg, s, a) && ValidLog(s.h) && a.Write?
    ensures Next(cfg, s, a).h == Emit(cfg.maxBytes, cfg.retention, s.h, a.t1, a.t2, a.text, a.chars, a.bytes)
  {
  }

  // Below the limit before its last record was added, or a single record.
  predicate Fits(maxBytes: int, records: seq<Record>) {
    maxBytes > 0 && |records| > 1 ==>
      Size(records[..|records| - 1]) + records[|records| - 1].chars + 1 < maxBytes
  }

  // Of the day, or at least not later.
  predicate OfDay(exact: bool, records: seq<Record>, day: nat) {
    forall r :: r in records ==> DayOf(r.at) <= day && (exact ==> DayOf(r.at) == day)
  }

  // The history up to a day: in order, without gaps, each file of its day and within the limit.
  ghost predicate GoodHistory(cfg: Config, files: Files, ps: seq<Piece>, upTo: nat) {
    && History(files, ps) && Contiguous(ps)
    && (forall p :: p in ps ==> GoodPiece(cfg, p, upTo))
  }

  predicate GoodPiece(cfg: Config, p: Piece, upTo: nat) {
    EPOCH_ORDINAL <= p.key.day <= upTo && OfDay(cfg.sameDay, p.records, p.key.day) && Fits(cfg.maxBytes, p.records)
  }

  ghost predicate GoodCurrent(cfg: Config, h: Log, now: Clock) {
    && ValidLog(h) && h.rolloverAt - DAY <= now
    && (h.current.Some? ==> h.current.value != [])
    && OfDay(cfg.sameDay, Content(h), OpenDay(h))
    && Fits(cfg.maxBytes, Content(h))
  }

  ghost predicate Conserved(cfg: Config, s: System) {
    && s.emitted == s.dropped + Flatten(s.pieces) + Content(s.h)
    && (cfg.retention <= 0 ==> s.dropped == [])
    && (forall r :: r in s.dropped ==> DayOf(r.at) + cfg.retention < DayOf(s.now))
  }

  // The current file was changed in the handler's interval or later.
  predicate GoodChange(s: System) {
    Content(s.h) != [] ==>
      s.h.rolloverAt - DAY <= s.changed <= s.now && Content(s.h)[|Content(s.h)| - 1].at <= s.changed
  }

  ghost predicate Inv(cfg: Config, s: System) {
    GoodChange(s) && GoodCurrent(cfg, s.h, s.now) && GoodHistory(cfg, s.h.files, s.pieces, OpenDay(s.h))
        && Conserved(cfg, s)
  }

  lemma WithinDay(h: Log, t: Clock)
    requires ValidLog(h) && h.rolloverAt - DAY <= t < h.rolloverAt
    ensures DayOf(t) == OpenDay(h) && NextMidnight(t) == h.rolloverAt
  {
  }

  lemma MidnightIsValid(t: Clock)
    ensures NextMidnight(t) % DAY == 0 && DAY <= NextMidnight(t) <= (LAST_ORDINAL - EPOCH_ORDINAL + 1) * DAY
    ensures NextMidnight(t) - DAY <= t < NextMidnight(t)
    ensures EPOCH_ORDINAL + (NextMidnight(t) - DAY) / DAY == DayOf(t)
  {
  }

  lemma DaysGrow(s: Clock, t: Clock)
    requires s <= t
    ensures DayOf(s) <= DayOf(t)
  {
  }

  // Whichever branch picks the name, it is the day of the records being moved.
  lemma RolloverDayIsOpenDay(h: Log, t: Clock)
    requires ValidLog(h) && h.rolloverAt - DAY <= t
    ensures RolloverDay(h, t) == OpenDay(h)
  {
    if t < h.rolloverAt {
      WithinDay(h, t);
    }
  }

  lemma {:induction false} FlattenSplit(ps: seq<Piece>, k: nat)
    requires k <= |ps|
    ensures Flatten(ps) == Flatten(ps[..k]) + Flatten(ps[k..])
  {
    if k == |ps| {
      assert ps[..k] == ps && ps[k..] == [];
    } else {
      var m := |ps| - 1;
      FlattenSplit(ps[..m], k);
      assert ps[..m][..k] == ps[..k] && ps[..m][k..] == ps[k..][..m - k];
      assert ps[k..][m - k] == ps[m];
    }
  }

  lemma {:induction false} FlattenMember(ps: seq<Piece>, r: Record)
    requires r in Flatten(ps)
    ensures exists p :: p in ps && r in p.records
  {
    var m := |ps| - 1;
    if r in ps[m].records {
      assert ps[m] in ps;
    } else {
      FlattenMember(ps[..m], r);
    }
  }

  // The history after the current file has been moved into it.
  lemma ArchivedIsGood(cfg: Config, s: System, t: Clock)
    requires GoodCurrent(cfg, s.h, s.now) && GoodHistory(cfg, s.h.files, s.pieces, OpenDay(s.h)) && s.now <= t
    ensures
      var day := RolloverDay(s.h, t);
      GoodHistory(cfg, Archive(s.h, day).files, Archived(s, day), OpenDay(s.h))
      && Flatten(Archived(s, day)) == Flatten(s.pieces) + Content(s.h)
  {
    RolloverDayIsOpenDay(s.h, t);
    var day := RolloverDay(s.h, t);
    if s.h.current.Some? {
      ArchiveAppends(s.h, s.pieces, day);
      var ps := Archived(s, day);
      assert ps[..|ps| - 1] == s.pieces;
    } else {
      assert Flatten(s.pieces) + [] == Flatten(s.pieces);
    }
  }

  lemma CutIsGood(cfg: Config, files: Files, ps: seq<Piece>, t: Clock, upTo: nat)
    requires GoodHistory(cfg, files, ps, upTo)
    ensures GoodHistory(cfg, DeleteExpired(cfg.retention, t, files), ps[Cut(cfg, ps, t)..], upTo)
  {
    CutHistory(cfg, files, ps, t);
    GoodSuffix(cfg, ps, Cut(cfg, ps, t), upTo);
  }

  lemma CutHistory(cfg: Config, files: Files, ps: seq<Piece>, t: Clock)
    requires History(files, ps) && Contiguous(ps)
    ensures History(DeleteExpired(cfg.retention, t, files), ps[Cut(cfg, ps, t)..]) && Contiguous(ps[Cut(cfg, ps, t)..])
  {
    hide History, Contiguous, Since, KeptFrom;
    if cfg.retention > 0 {
      DeletionKeepsSuffix(files, ps, DayOf(t) - cfg.retention);
    } else {
      assert ps[0..] == ps;
    }
  }

  lemma GoodSuffix(cfg: Config, ps: seq<Piece>, k: nat, upTo: nat)
    requires k <= |ps| && forall p :: p in ps ==> GoodPiece(cfg, p, upTo)
    ensures forall p :: p in ps[k..] ==> GoodPiece(cfg, p, upTo)
  {
    forall p | p in ps[k..] ensures p in ps {
    }
  }

  lemma DroppedAreOld(cfg: Config, ps: seq<Piece>, t: Clock, upTo: nat)
    requires forall p :: p in ps ==> GoodPiece(cfg, p, upTo)
    ensures forall r :: r in Flatten(ps[..Cut(cfg, ps, t)]) ==> DayOf(r.at) + cfg.retention < DayOf(t)
    ensures cfg.retention <= 0 ==> Flatten(ps[..Cut(cfg, ps, t)]) == []
  {
    var gone := ps[..Cut(cfg, ps, t)];
    forall r | r in Flatten(gone) ensures DayOf(r.at) + cfg.retention < DayOf(t) {
      FlattenMember(gone, r);
      var p :| p in gone && r in p.records;
      var i :| 0 <= i < |gone| && gone[i] == p;
      assert ps[i] == p && p in ps && GoodPiece(cfg, p, upTo);
    }
  }

  lemma RolledConserves(cfg: Config, s: System, t: Clock)
    requires Inv(cfg, s) && s.now <= t
    ensures Conserved(cfg, Rolled(cfg, s, t))
  {
    var ps := Archived(s, RolloverDay(s.h, t));
    var k := Cut(cfg, ps, t);
    ArchivedIsGood(cfg, s, t);
    DroppedAreOld(cfg, ps, t, OpenDay(s.h));
    DaysGrow(s.now, t);
    FlattenSplit(ps, k);
    Regroup(s.dropped, Flatten(ps[..k]), Flatten(ps[k..]), Flatten(s.pieces), Content(s.h));
  }

  lemma Regroup(dropped: seq<Record>, gone: seq<Record>, kept: seq<Record>, pieces: seq<Record>, content: seq<Record>)
    requires gone + kept == pieces + content
    ensures dropped + pieces + content == dropped + gone + kept + []
  {
    assert dropped + pieces + content == dropped + (pieces + content);
    assert dropped + gone + kept == dropped + (gone + kept);
  }

  lemma RolledKeepsInv(cfg: Config, s: System, t: Clock)
    requires Inv(cfg, s) && s.now <= t
    ensures Inv(cfg, Rolled(cfg, s, t))
    ensures t < Rolled(cfg, s, t).h.rolloverAt && Content(Rolled(cfg, s, t).h) == []
  {
    var day := RolloverDay(s.h, t);
    ArchivedIsGood(cfg, s, t);
    CutIsGood(cfg, Archive(s.h, day).files, Archived(s, day), t, OpenDay(s.h));
    RolledConserves(cfg, s, t);
    RolledLater(s.h, t, cfg.retention);
  }

  // The next interval is a later one, and t lies in it.
  lemma RolledLater(h: Log, t: Clock, retention: Retention)
    requires ValidLog(h) && h.rolloverAt - DAY <= t
    ensures var u := Rollover(retention, h, t);
            ValidLog(u) && u.rolloverAt - DAY <= t < u.rolloverAt && OpenDay(h) <= OpenDay(u)
  {
    MidnightIsValid(t);
    DaysGrow(h.rolloverAt - DAY, t);
  }

  lemma WrittenKeepsInv(cfg: Config, s: System, r: Record, wrote: Clock)
    requires Inv(cfg, s) && s.now <= r.at < s.h.rolloverAt && r.at <= wrote
    requires cfg.maxBytes > 0 && Content(s.h) != [] ==> Size(Content(s.h)) + r.chars + 1 < cfg.maxBytes
    ensures Inv(cfg, Written(s, r, wrote))
  {
    var content := Content(s.h);
    WithinDay(s.h, r.at);
    DaysGrow(s.now, wrote);
    assert (content + [r])[..|content|] == content;
    assert s.emitted + [r] == s.dropped + Flatten(s.pieces) + (content + [r]);
  }

  lemma ReopenedKeepsInv(cfg: Config, s: System, t: Clock)
    requires Inv(cfg, s) && Enabled(cfg, s, Restart(t))
    ensures Inv(cfg, s.(h := Reopened(s, t), now := t))
  {
    hide History, Contiguous, Flatten, Fits;
    MidnightIsValid(t);
    DaysGrow(s.now, t);
    DaysGrow(s.h.rolloverAt - DAY, t);
    if Content(s.h) != [] {
      MidnightIsValid(s.changed);
      DaysGrow(s.h.rolloverAt - DAY, s.changed);
      LastIsIn(Content(s.h));
    }
  }

  lemma LastIsIn(records: seq<Record>)
    requires records != []
    ensures records[|records| - 1] in records
  {
  }

  // A handler that starts over a file keeps the file's records under their day exactly if the file
  // was last changed on the day of its last record.
  lemma RestartKeepsDayIff(cfg: Config, s: System, t: Clock)
    requires Inv(cfg, s) && s.now <= t && Content(s.h) != [] && OfDay(true, Content(s.h), OpenDay(s.h))
    ensures ValidLog(Reopened(s, t))
    ensures OfDay(true, Content(s.h), OpenDay(Reopened(s, t))) <==> ChangedOnItsDay(s)
  {
    MidnightIsValid(s.changed);
    LastIsIn(Content(s.h));
  }

  lemma {:induction false} SizeOfSome(records: seq<Record>)
    requires records != []
    ensures Size(records) > 0
  {
  }

  lemma InvNext(cfg: Config, s: System, a: Action)
    requires Inv(cfg, s) && Enabled(cfg, s, a)
    ensures Inv(cfg, Next(cfg, s, a))
  {
    match a
    case Write(t1, t2, wrote, text, chars, bytes) =>
      if Due(cfg.maxBytes, s.h, t1, chars) {
        RolledKeepsInv(cfg, s, t2);
        WrittenKeepsInv(cfg, Rolled(cfg, s, t2), Record(text, chars, bytes, t2), wrote);
      } else {
        if Content(s.h) != [] {
          SizeOfSome(Content(s.h));
        }
        WrittenKeepsInv(cfg, s, Record(text, chars, bytes, t1), wrote);
      }
    case Restart(t) => ReopenedKeepsInv(cfg, s, t);
  }

  predicate Runs(cfg: Config, s: System, acts: seq<Action>)
    decreases |acts|
  {
    acts == [] || (ValidLog(s.h) && Enabled(cfg, s, acts[0]) && Runs(cfg, Next(cfg, s, acts[0]), acts[1..]))
  }

  function After(cfg: Config, s: System, acts: seq<Action>): System
    requires Runs(cfg, s, acts)
    decreases |acts|
  {
    if acts == [] then s else After(cfg, Next(cfg, s, acts[0]), acts[1..])
  }

  // A handler constructed at time t in a directory without log files.
  function Initial(t: Clock): System {
    System(Log(NextMidnight(t), None, map[]), t, t, [], [], [])
  }

  lemma {:induction false} InvAfter(cfg: Config, s: System, acts: seq<Action>)
    requires Inv(cfg, s) && Runs(cfg, s, acts)
    ensures Inv(cfg, After(cfg, s, acts))
    decreases |acts|
  {
    if acts != [] {
      InvNext(cfg, s, acts[0]);
      InvAfter(cfg, Next(cfg, s, acts[0]), acts[1..]);
    }
  }

  lemma InitialInv(cfg: Config, t: Clock)
    ensures Inv(cfg, Initial(t))
  {
    MidnightIsValid(t);
  }

  // Reading the history in (date, number) order and then the current file gives the emitted
  // records in order: all of them without retention, and otherwise all but a front part whose
  // days are past retention. No record is in a file of an earlier day, every record is in the file of
  // its day if no handler started over a file that was changed on a later one, and numbers have no
  // gaps.
  lemma LogsAreConserved(cfg: Config, t: Clock, acts: seq<Action>, ps: seq<Piece>)
    requires Runs(cfg, Initial(t), acts) && History(After(cfg, Initial(t), acts).h.files, ps)
    ensures
      var s := After(cfg, Initial(t), acts);
      && s.emitted == s.dropped + Flatten(ps) + Content(s.h)
      && (cfg.retention <= 0 ==> s.dropped == [])
      && (forall r :: r in s.dropped ==> DayOf(r.at) + cfg.retention < DayOf(s.now))
      && (forall p :: p in ps ==> OfDay(cfg.sameDay, p.records, p.key.day))
      && Contiguous(ps)
  {
    InitialInv(cfg, t);
    InvAfter(cfg, Initial(t), acts);
    var s := After(cfg, Initial(t), acts);
    HistoryIsUnique(s.h.files, ps, s.pieces);
  }

  function Texts(acts: seq<Action>): seq<nat> {
    if acts == [] then [] else (if acts[0].Write? then [acts[0].text] else []) + Texts(acts[1..])
  }

  function TextsOf(records: seq<Record>): seq<nat> {
    seq(|records|, i requires 0 <= i < |records| => records[i].text)
  }

  // The emitted records are the texts of the run's writes, in their order.
  lemma {:induction false} EmittedAreWritten(cfg: Config, s: System, acts: seq<Action>)
    requires Runs(cfg, s, acts)
    ensures TextsOf(After(cfg, s, acts).emitted) == TextsOf(s.emitted) + Texts(acts)
    decreases |acts|
  {
    if acts != [] {
      EmittedAreWritten(cfg, Next(cfg, s, acts[0]), acts[1..]);
    }
  }

  // ---------------------------------------------------------------------------------------
  // No file is closed early
  // ---------------------------------------------------------------------------------------

  // The first record of the next file had no room in this one.
  predicate Full(maxBytes: int, records: seq<Record>, next: seq<Record>) {
    next != [] && maxBytes > 0 && Size(records) + next[0].chars + 1 >= maxBytes
  }

  predicate PackedAt(maxBytes: int, ps: seq<Piece>, i: nat)
    requires 0 < i < |ps|
  {
    ps[i - 1].key.day == ps[i].key.day ==> Full(maxBytes, ps[i - 1].records, ps[i].records)
  }

  // Of two files of a day the earlier one was full, and so was the last one before the current.
  ghost predicate Packed(maxBytes: int, ps: seq<Piece>) {
    forall i :: 0 < i < |ps| ==> PackedAt(maxBytes, ps, i)
  }

  predicate PackedLast(maxBytes: int, ps: seq<Piece>, day: int, content: seq<Record>) {
    ps != [] && ps[|ps| - 1].key.day == day ==> Full(maxBytes, ps[|ps| - 1].records, content)
  }

  ghost predicate AllPacked(cfg: Config, s: System) {
    && ValidLog(s.h) && Packed(cfg.maxBytes, s.pieces)
    && PackedLast(cfg.maxBytes, s.pieces, OpenDay(s.h), Content(s.h))
    && (Content(s.h) == [] ==> s.pieces == [])
  }

  lemma PackedAppend(maxBytes: int, ps: seq<Piece>, p: Piece)
    requires Packed(maxBytes, ps) && PackedLast(maxBytes, ps, p.key.day, p.records)
    ensures Packed(maxBytes, ps + [p])
  {
    var qs := ps + [p];
    forall i | 0 < i < |qs| ensures PackedAt(maxBytes, qs, i) {
      assert i < |ps| ==> PackedAt(maxBytes, ps, i);
    }
  }

  lemma PackedSuffix(maxBytes: int, ps: seq<Piece>, k: nat)
    requires Packed(maxBytes, ps) && k <= |ps|
    ensures Packed(maxBytes, ps[k..])
  {
    var qs := ps[k..];
    forall i | 0 < i < |qs| ensures PackedAt(maxBytes, qs, i) {
      assert PackedAt(maxBytes, ps, k + i);
    }
  }

  lemma ArchivedIsPacked(cfg: Config, s: System, t: Clock)
    requires GoodCurrent(cfg, s.h, s.now) && AllPacked(cfg, s) && s.now <= t
    requires forall p :: p in s.pieces ==> p.key.day <= OpenDay(s.h)
    ensures
      var ps := Archived(s, RolloverDay(s.h, t));
      && Packed(cfg.maxBytes, ps)
      && (forall p :: p in ps ==> p.key.day <= OpenDay(s.h))
      && (Content(s.h) != [] ==> ps != [] && ps[|ps| - 1].records == Content(s.h))
  {
    RolloverDayIsOpenDay(s.h, t);
    if s.h.current.Some? {
      PackedAppend(cfg.maxBytes, s.pieces,
        Piece(Key(OpenDay(s.h), NextNumber(s.pieces, OpenDay(s.h))), s.h.current.value));
    }
  }

  // A rollover by time opens a later day; one by size closed a full file.
  lemma RolledIsPacked(cfg: Config, s: System, t1: Clock, t2: Clock, r: Record)
    requires GoodCurrent(cfg, s.h, s.now) && AllPacked(cfg, s) && s.now <= t1 <= t2
    requires forall p :: p in s.pieces ==> p.key.day <= OpenDay(s.h)
    requires Due(cfg.maxBytes, s.h, t1, r.chars)
    ensures
      var u := Rolled(cfg, s, t2);
      ValidLog(u.h) && Packed(cfg.maxBytes, u.pieces) && PackedLast(cfg.maxBytes, u.pieces, OpenDay(u.h), [r])
  {
    hide Packed, GoodCurrent, AllPacked;
    BeginsBefore(cfg, s.h, s.now);
    var ps := Archived(s, RolloverDay(s.h, t2));
    ArchivedIsPacked(cfg, s, t2);
    PackedSuffix(cfg.maxBytes, ps, Cut(cfg, ps, t2));
    MidnightIsValid(t2);
    if t2 >= s.h.rolloverAt {
      LaterDay(s.h, t2, cfg.retention);
      if ps != [] {
        assert ps[|ps| - 1] in ps;
      }
    }
  }

  lemma BeginsBefore(cfg: Config, h: Log, now: Clock)
    requires GoodCurrent(cfg, h, now)
    ensures ValidLog(h) && h.rolloverAt - DAY <= now
  {
  }

  lemma LaterDay(h: Log, t: Clock, retention: Retention)
    requires ValidLog(h) && h.rolloverAt <= t
    ensures ValidLog(Rollover(retention, h, t)) && OpenDay(h) < OpenDay(Rollover(retention, h, t))
  {
    MidnightIsValid(t);
    DaysGrow(h.rolloverAt, t);
  }

  lemma WrittenIsPacked(cfg: Config, s: System, r: Record, wrote: Clock)
    requires ValidLog(s.h) && Packed(cfg.maxBytes, s.pieces)
    requires PackedLast(cfg.maxBytes, s.pieces, OpenDay(s.h), Content(s.h) + [r])
    ensures AllPacked(cfg, Written(s, r, wrote))
  {
  }

  lemma FilledIsPacked(cfg: Config, s: System, r: Record)
    requires AllPacked(cfg, s)
    ensures PackedLast(cfg.maxBytes, s.pieces, OpenDay(s.h), Content(s.h) + [r])
  {
  }

  lemma RestartIsPacked(cfg: Config, s: System, t: Clock)
    requires Inv(cfg, s) && AllPacked(cfg, s) && s.now <= t
    ensures AllPacked(cfg, s.(h := Reopened(s, t), now := t))
  {
    hide Packed, History, Contiguous, Conserved, Flatten, Fits;
    PiecesNotLater(cfg, s);
    ReopenedLater(cfg, s, t);
    if s.pieces != [] {
      assert s.pieces[|s.pieces| - 1] in s.pieces;
    }
  }

  lemma PackedNext(cfg: Config, s: System, a: Action)
    requires Inv(cfg, s) && AllPacked(cfg, s) && Enabled(cfg, s, a)
    ensures AllPacked(cfg, Next(cfg, s, a))
  {
    hide Packed, AllPacked, PackedLast, Due, Written, Reopened;
    match a
    case Write(t1, t2, wrote, text, chars, bytes) =>
      if Due(cfg.maxBytes, s.h, t1, chars) {
        var r := Record(text, chars, bytes, t2);
        PiecesNotLater(cfg, s);
        RolledIsPacked(cfg, s, t1, t2, r);
        assert Content(Rolled(cfg, s, t2).h) + [r] == [r];
        WrittenIsPacked(cfg, Rolled(cfg, s, t2), r, wrote);
      } else {
        FilledIsPacked(cfg, s, Record(text, chars, bytes, t1));
        PackedParts(cfg, s);
        WrittenIsPacked(cfg, s, Record(text, chars, bytes, t1), wrote);
      }
    case Restart(t) => RestartIsPacked(cfg, s, t);
  }

  lemma PackedParts(cfg: Config, s: System)
    requires AllPacked(cfg, s)
    ensures ValidLog(s.h) && Packed(cfg.maxBytes, s.pieces)
  {
  }

  lemma PiecesNotLater(cfg: Config, s: System)
    requires Inv(cfg, s)
    ensures forall p :: p in s.pieces ==> p.key.day <= OpenDay(s.h)
  {
    forall p | p in s.pieces ensures p.key.day <= OpenDay(s.h) {
      assert GoodPiece(cfg, p, OpenDay(s.h));
    }
  }

  lemma ReopenedLater(cfg: Config, s: System, t: Clock)
    requires GoodChange(s) && GoodCurrent(cfg, s.h, s.now) && s.now <= t
    ensures ValidLog(Reopened(s, t)) && OpenDay(s.h) <= OpenDay(Reopened(s, t))
  {
    MidnightIsValid(t);
    DaysGrow(s.h.rolloverAt - DAY, t);
    if Content(s.h) != [] {
      MidnightIsValid(s.changed);
      DaysGrow(s.h.rolloverAt - DAY, s.changed);
    }
  }

  lemma {:induction false} PackedAfter(cfg: Config, s: System, acts: seq<Action>)
    requires Inv(cfg, s) && AllPacked(cfg, s) && Runs(cfg, s, acts)
    ensures AllPacked(cfg, After(cfg, s, acts))
    decreases |acts|
  {
    hide Inv, AllPacked;
    if acts != [] {
      InvNext(cfg, s, acts[0]);
      PackedNext(cfg, s, acts[0]);
      PackedAfter(cfg, Next(cfg, s, acts[0]), acts[1..]);
    }
  }

  // A day has a second file only because the first had no room for the record that opened it, and
  // so on for every further one, the current file included. So without a size limit there is one
  // file a day: only midnight rolls over.
  lemma NoFileClosedEarly(cfg: Config, t: Clock, acts: seq<Action>, k: Key)
    requires Runs(cfg, Initial(t), acts) && k in After(cfg, Initial(t), acts).h.files
    ensures
      var s := After(cfg, Initial(t), acts);
      && ValidLog(s.h)
      && (k.number > 0 ==>
            var before := Key(k.day, k.number - 1);
            && before in s.h.files && s.h.files[k] != [] && cfg.maxBytes > 0
            && Size(s.h.files[before]) + s.h.files[k][0].chars + 1 >= cfg.maxBytes)
      && (k.day == OpenDay(s.h) && Key(k.day, k.number + 1) !in s.h.files ==>
            && Content(s.h) != [] && cfg.maxBytes > 0
            && Size(s.h.files[k]) + Content(s.h)[0].chars + 1 >= cfg.maxBytes)
  {
    InitialInv(cfg, t);
    MidnightIsValid(t);
    PackedAfter(cfg, Initial(t), acts);
    InvAfter(cfg, Initial(t), acts);
    var s := After(cfg, Initial(t), acts);
    PiecesNotLater(cfg, s);
    PieceIsFull(cfg.maxBytes, s.h.files, s.pieces, OpenDay(s.h), Content(s.h), k);
  }

  lemma PieceIsFull(maxBytes: int, files: Files, ps: seq<Piece>, day: nat, content: seq<Record>, k: Key)
    requires History(files, ps) && Contiguous(ps) && Packed(maxBytes, ps) && PackedLast(maxBytes, ps, day, content)
    requires k in files && forall p :: p in ps ==> p.key.day <= day
    ensures k.number > 0 ==>
      Key(k.day, k.number - 1) in files && Full(maxBytes, files[Key(k.day, k.number - 1)], files[k])
    ensures k.day == day && Key(k.day, k.number + 1) !in files ==> Full(maxBytes, files[k], content)
  {
    assert Piece(k, files[k]) in ps;
    var i :| 0 <= i < |ps| && ps[i] == Piece(k, files[k]);
    assert Follows(ps, i);
    if k.number > 0 {
      assert ps[i - 1] in ps && PackedAt(maxBytes, ps, i);
    }
    if k.day == day && i < |ps| - 1 {
      assert Earlier(ps[i].key, ps[i + 1].key) && Follows(ps, i + 1);
      assert ps[i + 1] in ps;
    }
  }

  // ---------------------------------------------------------------------------------------
  // Sizes
  // ---------------------------------------------------------------------------------------

  // A file is as long as its records, each with its newline.
  lemma {:induction false} SizeIsSum(a: seq<Record>, b: seq<Record>, r: Record)
    ensures Size(a + b) == Size(a) + Size(b) && Size([]) == 0 && Size([r]) == r.bytes + 1
  {
    assert [r][..0] == [];
    if b == [] {
      assert a + b == a;
    } else {
      SizeIsSum(a, b[..|b| - 1], r);
      assert (a + b)[..|a + b| - 1] == a + b[..|b| - 1];
    }
  }

  // The limit counts characters: a file of several records stays below it by less than the
  // bytes its last record has over its characters.
  lemma SizeBound(maxBytes: int, records: seq<Record>)
    requires maxBytes > 0 && Fits(maxBytes, records) && |records| > 1
    ensures Size(records) < maxBytes + records[|records| - 1].bytes - records[|records| - 1].chars
  {
  }

  // With no more than one byte per character every closed file is below the limit or holds one record.
  lemma FilesStayBelowLimit(cfg: Config, t: Clock, acts: seq<Action>, k: Key)
    requires Runs(cfg, Initial(t), acts) && cfg.maxBytes > 0 && k in After(cfg, Initial(t), acts).h.files
    requires forall r :: r in After(cfg, Initial(t), acts).h.files[k] ==> r.bytes <= r.chars
    ensures |After(cfg, Initial(t), acts).h.files[k]| <= 1
            || Size(After(cfg, Initial(t), acts).h.files[k]) < cfg.maxBytes
  {
    InitialInv(cfg, t);
    InvAfter(cfg, Initial(t), acts);
    var s := After(cfg, Initial(t), acts);
    var records := s.h.files[k];
    assert Piece(k, records) in s.pieces;
    if |records| > 1 {
      SizeBound(cfg.maxBytes, records);
    }
  }

  lemma Then(cfg: Config, s: System, a: Action, acts: seq<Action>)
    requires ValidLog(s.h) && Enabled(cfg, s, a) && Runs(cfg, Next(cfg, s, a), acts)
    ensures Runs(cfg, s, [a] + acts) && After(cfg, s, [a] + acts) == After(cfg, Next(cfg, s, a), acts)
  {
    assert ([a] + acts)[1..] == acts;
  }

  const FIRST := Key(EPOCH_ORDINAL, 0)

  lemma TwoRecords(r1: Record, r2: Record)
    ensures Size([r1]) == r1.bytes + 1 && Size([r1, r2]) == r1.bytes + r2.bytes + 2
  {
    assert [r1][..0] == [] && [r1, r2][..1] == [r1];
  }

  // Without that it is not, whatever the limit: a record of fewer characters than bytes behind one
  // that just leaves room for its characters. The next record closes the file.
  lemma WideCharactersOverflow(limit: int, sameDay: bool, chars: nat, bytes: nat) returns (acts: seq<Action>)
    requires bytes > chars && chars + 3 <= limit
    ensures Runs(Config(limit, 0, sameDay), Initial(0), acts)
    ensures
      var files := After(Config(limit, 0, sameDay), Initial(0), acts).h.files;
      && FIRST in files && |files[FIRST]| == 2
      && files[FIRST][1].chars == chars && files[FIRST][1].bytes == bytes
      && Size(files[FIRST]) == limit + bytes - chars - 1
  {
    var cfg, room := Config(limit, 0, sameDay), limit - chars - 3;
    var w1, w2, w3 := Write(0, 0, 0, 1, room, room), Write(0, 0, 0, 2, chars, bytes), Write(0, 0, 0, 3, 0, 0);
    var r1, r2, r3 := Record(1, room, room, 0), Record(2, chars, bytes, 0), Record(3, 0, 0, 0);
    var s1 := Written(Initial(0), r1, 0);
    var s2 := Written(s1, r2, 0);
    assert Content(s1.h) == [r1] && Content(s2.h) == [r1, r2];
    TwoRecords(r1, r2);
    assert Next(cfg, Initial(0), w1) == s1 && Next(cfg, s1, w2) == s2;
    ClosedNext(cfg, s2, w3);
    var s3 := Next(cfg, s2, w3);
    assert After(cfg, s3, []) == s3;
    acts := [w3] + [];
    Then(cfg, s2, w3, []);
    Then(cfg, s1, w2, acts);
    acts := [w2] + acts;
    Then(cfg, Initial(0), w1, acts);
    acts := [w1] + acts;
  }

  // A record that is due on the first day closes the first file.
  lemma ClosedNext(cfg: Config, s: System, w: Action)
    requires ValidLog(s.h) && s.h.files == map[] && s.h.current.Some? && s.h.rolloverAt == DAY && cfg.retention <= 0
    requires w.Write? && Enabled(cfg, s, w) && w.t2 == 0 && Due(cfg.maxBytes, s.h, w.t1, w.chars)
    ensures Next(cfg, s, w).h.files == map[FIRST := s.h.current.value]
  {
    assert DayOf(0) == EPOCH_ORDINAL;
    assert FirstFree(map[], EPOCH_ORDINAL, 0) == 0;
  }

  // And it does happen: a record read before midnight and written after it, a restart, and the file is
  // named by the later day.
  lemma LateWriteMovesDay(at: Clock, wrote: Clock) returns (acts: seq<Action>)
    requires at <= wrote && DayOf(at) < DayOf(wrote) < LAST_ORDINAL
    ensures Runs(Config(0, 0, false), Initial(at), acts)
    ensures
      var files := After(Config(0, 0, false), Initial(at), acts).h.files;
      Key(DayOf(wrote), 0) in files && files[Key(DayOf(wrote), 0)] == [Record(1, 1, 1, at)]
  {
    var cfg, next := Config(0, 0, false), NextMidnight(wrote);
    MidnightIsValid(at);
    MidnightIsValid(wrote);
    var w1, w2 := Write(at, at, wrote, 1, 1, 1), Write(next, next, next, 2, 1, 1);
    var s1 := Written(Initial(at), Record(1, 1, 1, at), wrote);
    assert [] + [Record(1, 1, 1, at)] == [Record(1, 1, 1, at)];
    assert Next(cfg, Initial(at), w1) == s1;
    var s2 := Next(cfg, s1, Restart(wrote));
    assert FirstFree(map[], DayOf(wrote), 0) == 0;
    var s3 := Next(cfg, s2, w2);
    assert After(cfg, s3, []) == s3;
    acts := [];
    Then(cfg, s2, w2, acts);
    acts := [w2] + acts;
    Then(cfg, s1, Restart(wrote), acts);
    acts := [Restart(wrote)] + acts;
    Then(cfg, Initial(at), w1, acts);
    acts := [w1] + acts;
  }

  // No closed file of several records that ends in a record of this shape reaches the limit.
  ghost predicate LimitHolds(limit: int, chars: nat, bytes: nat) {
    forall retention: Retention, sameDay: bool, t: Clock, acts: seq<Action>, k: Key |
      Runs(Config(limit, retention, sameDay), Initial(t), acts)
          && k in After(Config(limit, retention, sameDay), Initial(t), acts).h.files ::
      Closed(limit, chars, bytes, After(Config(limit, retention, sameDay), Initial(t), acts).h.files[k])
  }

  predicate Closed(limit: int, chars: nat, bytes: nat, records: seq<Record>) {
    |records| > 1 && records[|records| - 1].chars == chars && records[|records| - 1].bytes == bytes ==>
        Size(records) < limit
  }

  // The limit holds exactly for last records of no more bytes than characters, and for those too
  // long to share a file.
  lemma LimitHoldsIff(limit: int, chars: nat, bytes: nat)
    requires limit > 0
    ensures LimitHolds(limit, chars, bytes) <==> bytes <= chars || chars + 3 > limit
  {
    if bytes > chars && chars + 3 <= limit {
      var retention: Retention, sameDay := 0, true;
      var acts := WideCharactersOverflow(limit, sameDay, chars, bytes);
      assert !Closed(limit, chars, bytes, After(Config(limit, retention, sameDay), Initial(0), acts).h.files[FIRST]);
    } else {
      forall retention: Retention, sameDay: bool, t: Clock, acts: seq<Action>, k: Key |
        Runs(Config(limit, retention, sameDay), Initial(t), acts)
            && k in After(Config(limit, retention, sameDay), Initial(t), acts).h.files
        ensures Closed(limit, chars, bytes, After(Config(limit, retention, sameDay), Initial(t), acts).h.files[k])
      {
        ClosedFits(Config(limit, retention, sameDay), t, acts, k);
      }
    }
  }

  lemma ClosedFits(cfg: Config, t: Clock, acts: seq<Action>, k: Key)
    requires Runs(cfg, Initial(t), acts) && cfg.maxBytes > 0 && k in After(cfg, Initial(t), acts).h.files
    ensures
      var records := After(cfg, Initial(t), acts).h.files[k];
      |records| > 1 ==>
        && Size(records) < cfg.maxBytes + records[|records| - 1].bytes - records[|records| - 1].chars
        && records[|records| - 1].chars + 3 <= cfg.maxBytes
  {
    InitialInv(cfg, t);
    InvAfter(cfg, Initial(t), acts);
    var s := After(cfg, Initial(t), acts);
    var records := s.h.files[k];
    assert Piece(k, records) in s.pieces;
    if |records| > 1 {
      SizeBound(cfg.maxBytes, records);
      assert Size(records[..|records| - 1]) >= 1;
    }
  }

  // ---------------------------------------------------------------------------------------
  // Retention
  // ---------------------------------------------------------------------------------------

  // In any run, a record that rolls the file over leaves exactly the files that are not older than
  // the retention; of everything ever emitted only records of older days are gone, and all of them
  // if every record is in the file of its day.
  lemma RetentionIsExact(cfg: Config, t: Clock, acts: seq<Action>, a: Action)
    requires Runs(cfg, Initial(t), acts) && Enabled(cfg, After(cfg, Initial(t), acts), a) && a.Write?
            && cfg.retention > 0
    requires
      var s := After(cfg, Initial(t), acts);
      ValidLog(s.h) && Due(cfg.maxBytes, s.h, a.t1, a.chars)
    ensures
      var s := After(cfg, Initial(t), acts);
      var u := Next(cfg, s, a);
      && (forall k :: k in u.h.files ==> k.day + cfg.retention >= DayOf(a.t2))
      && (forall k :: k in s.h.files && k.day + cfg.retention >= DayOf(a.t2) ==>
          k in u.h.files && u.h.files[k] == s.h.files[k])
      && u.emitted == u.dropped + (Flatten(u.pieces) + Content(u.h)) && History(u.h.files, u.pieces)
      && (forall r :: r in u.dropped ==> DayOf(r.at) + cfg.retention < DayOf(a.t2))
      && (cfg.sameDay ==> forall r :: r in Flatten(u.pieces) + Content(u.h) ==>
          DayOf(r.at) + cfg.retention >= DayOf(a.t2))
  {
    var s := After(cfg, Initial(t), acts);
    var u := Next(cfg, s, a);
    InitialInv(cfg, t);
    InvAfter(cfg, Initial(t), acts);
    InvNext(cfg, s, a);
    NoOldFiles(cfg, s, a);
    RolledKeepsInv(cfg, s, a.t2);
    ConservedParts(cfg, Rolled(cfg, s, a.t2));
    assert u.dropped == Rolled(cfg, s, a.t2).dropped;
    hide Next, Runs, After, Inv, History, Flatten, Content, Rolled;
    if cfg.sameDay {
      RecordsAreRecent(cfg, u, a.t2, Record(a.text, a.chars, a.bytes, a.t2));
    }
    ConservedParts(cfg, u);
  }

  lemma ConservedParts(cfg: Config, u: System)
    requires Inv(cfg, u)
    ensures u.emitted == u.dropped + (Flatten(u.pieces) + Content(u.h)) && History(u.h.files, u.pieces)
    ensures forall r :: r in u.dropped ==> DayOf(r.at) + cfg.retention < DayOf(u.now)
  {
    assert u.dropped + Flatten(u.pieces) + Content(u.h) == u.dropped + (Flatten(u.pieces) + Content(u.h));
  }

  lemma RecordsAreRecent(cfg: Config, u: System, t: Clock, last: Record)
    requires Inv(cfg, u) && cfg.sameDay && cfg.retention > 0 && last.at == t && u.h.current == Some([last])
    requires forall k :: k in u.h.files ==> k.day + cfg.retention >= DayOf(t)
    ensures forall r :: r in Flatten(u.pieces) + Content(u.h) ==> DayOf(r.at) + cfg.retention >= DayOf(t)
  {
    forall r | r in Flatten(u.pieces) + Content(u.h) ensures DayOf(r.at) + cfg.retention >= DayOf(t) {
      if r in Flatten(u.pieces) {
        FlattenMember(u.pieces, r);
        var p :| p in u.pieces && r in p.records;
        assert p.key in u.h.files && GoodPiece(cfg, p, OpenDay(u.h));
      }
    }
  }

  lemma NoOldFiles(cfg: Config, s: System, a: Action)
    requires ValidLog(s.h) && Enabled(cfg, s, a) && a.Write? && Due(cfg.maxBytes, s.h, a.t1, a.chars)
            && cfg.retention > 0
    ensures forall k :: k in Next(cfg, s, a).h.files ==> k.day + cfg.retention >= DayOf(a.t2)
    ensures forall k :: k in s.h.files && k.day + cfg.retention >= DayOf(a.t2) ==>
              k in Next(cfg, s, a).h.files && Next(cfg, s, a).h.files[k] == s.h.files[k]
    ensures Next(cfg, s, a).h.current == Some([Record(a.text, a.chars, a.bytes, a.t2)])
  {
    assert [] + [Record(a.text, a.chars, a.bytes, a.t2)] == [Record(a.text, a.chars, a.bytes, a.t2)];
  }
}
