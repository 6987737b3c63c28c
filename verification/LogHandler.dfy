// The handler itself, over a directory of named files.

module LogHandler {
  import opened Basics
  import opened Calendar
  import opened LogNames
  import LogRotation

  type Record = LogRotation.Record
  type Directory = map<string, seq<Record>>

  // The directory holds the current file, the history files and, next to them, anything else; among
  // that may be names the handler's pattern takes for history though it never makes them.
  ghost predicate Represents(base: string, dir: Directory, log: LogRotation.Log) {
    && (log.current.Some? <==> base in dir)
    && (log.current.Some? ==> log.current.value == dir[base])
    && (forall k :: k in log.files ==> Stored(base, dir, log.files, k))
    && (forall k: LogRotation.Key | 1 <= k.day <= LAST_ORDINAL :: Listed(base, dir.Keys, log.files, k))
  }

  ghost predicate Stored(base: string, dir: Directory, files: LogRotation.Files, k: LogRotation.Key)
    requires k in files
  {
    1 <= k.day <= LAST_ORDINAL && NameOf(base, k) in dir && dir[NameOf(base, k)] == files[k]
  }

  ghost predicate Listed(base: string, names: set<string>, files: LogRotation.Files, k: LogRotation.Key)
    requires 1 <= k.day <= LAST_ORDINAL
  {
    NameOf(base, k) in names ==> k in files
  }

  function NameOf(base: string, k: LogRotation.Key): string
    requires 1 <= k.day <= LAST_ORDINAL
  {
    Name(base, IsoOf(k.day), k.number)
  }

  predicate Expired(base: string, cutoff: string, name: string) {
    var date := DateIn(base, name);
    date != None && Less(date.value, cutoff)
  }

  lemma KeyMatches(base: string, k: LogRotation.Key)
    requires 1 <= k.day <= LAST_ORDINAL
    ensures DateIn(base, NameOf(base, k)) == Some(IsoOf(k.day)) && NameOf(base, k) != base
  {
    NameMatches(base, k.day, k.number);
    BaseIsNoHistory(base);
  }

  lemma KeysDiffer(base: string, j: LogRotation.Key, k: LogRotation.Key)
    requires 1 <= j.day <= LAST_ORDINAL && 1 <= k.day <= LAST_ORDINAL
    ensures NameOf(base, j) == NameOf(base, k) ==> j == k
  {
    NameInjective(base, j.day, j.number, k.day, k.number);
  }

  // A file's name is taken iff its key is.
  lemma TakenIff(base: string, dir: Directory, log: LogRotation.Log, k: LogRotation.Key)
    requires Represents(base, dir, log) && 1 <= k.day <= LAST_ORDINAL
    ensures NameOf(base, k) in dir <==> k in log.files
  {
    hide NameOf;
    assert Listed(base, dir.Keys, log.files, k);
    assert k in log.files ==> Stored(base, dir, log.files, k);
  }

  // Every directory is one of some log: its files are those whose names the handler would make.
  lemma {:induction false} FilesOf(base: string, dir: Directory, names: set<string>) returns (files: LogRotation.Files)
    requires names <= dir.Keys
    ensures forall k :: k in files ==> Stored(base, dir, files, k)
    ensures forall k: LogRotation.Key | 1 <= k.day <= LAST_ORDINAL :: Listed(base, names, files, k)
    decreases names
  {
    hide NameOf;
    if names == {} {
      files := map[];
    } else {
      var name :| name in names;
      var rest := FilesOf(base, dir, names - {name});
      files := rest;
      if k: LogRotation.Key :| 1 <= k.day <= LAST_ORDINAL && NameOf(base, k) == name {
        files := rest[k := dir[name]];
        OneMore(base, dir, names, rest, k);
      } else {
        forall j: LogRotation.Key | 1 <= j.day <= LAST_ORDINAL ensures Listed(base, names, files, j) {
          assert Listed(base, names - {name}, rest, j);
        }
      }
    }
  }

  lemma OneMore(base: string, dir: Directory, names: set<string>, rest: LogRotation.Files, k: LogRotation.Key)
    requires names <= dir.Keys && 1 <= k.day <= LAST_ORDINAL && NameOf(base, k) in names
    requires forall j :: j in rest ==> Stored(base, dir, rest, j)
    requires forall j: LogRotation.Key | 1 <= j.day <= LAST_ORDINAL :: Listed(base, names - {NameOf(base, k)}, rest, j)
    ensures
      var files := rest[k := dir[NameOf(base, k)]];
      && (forall j :: j in files ==> Stored(base, dir, files, j))
      && (forall j: LogRotation.Key | 1 <= j.day <= LAST_ORDINAL :: Listed(base, names, files, j))
  {
    hide NameOf;
    var files := rest[k := dir[NameOf(base, k)]];
    forall j | j in files ensures Stored(base, dir, files, j) {
      if j != k { assert Stored(base, dir, rest, j); }
    }
    forall j: LogRotation.Key | 1 <= j.day <= LAST_ORDINAL ensures Listed(base, names, files, j) {
      assert Listed(base, names - {NameOf(base, k)}, rest, j);
      KeysDiffer(base, j, k);
    }
  }

  lemma EveryDirectory(base: string, dir: Directory, rolloverAt: int) returns (log: LogRotation.Log)
    ensures Represents(base, dir, log) && log.rolloverAt == rolloverAt
  {
    var files := FilesOf(base, dir, dir.Keys);
    log := LogRotation.Log(rolloverAt, if base in dir then Some(dir[base]) else None, files);
  }

  // And of no other log.
  lemma OneLog(base: string, dir: Directory, a: LogRotation.Log, b: LogRotation.Log)
    requires Represents(base, dir, a) && Represents(base, dir, b) && a.rolloverAt == b.rolloverAt
    ensures a == b
  {
    hide NameOf;
    forall k ensures k in a.files <==> k in b.files {
      if k in a.files {
        assert Stored(base, dir, a.files, k);
        TakenIff(base, dir, b, k);
      } else if k in b.files {
        assert Stored(base, dir, b.files, k);
        TakenIff(base, dir, a, k);
      }
    }
    forall k | k in a.files ensures a.files[k] == b.files[k] {
      assert Stored(base, dir, a.files, k) && Stored(base, dir, b.files, k);
    }
    assert a.files == b.files;
  }

  // Comparing the date strings of file names is comparing the days of the files.
  lemma ExpiredIffOlder(base: string, name: string, day: nat, cutoff: nat)
    requires 1 <= day <= LAST_ORDINAL && 1 <= cutoff <= LAST_ORDINAL
    ensures DateIn(base, name) == Some(IsoOf(day)) ==> (Expired(base, IsoOf(cutoff), name) <==> day < cutoff)
  {
    IsoOfOrder(day, cutoff);
  }

  function MovedFile(log: LogRotation.Log, k: LogRotation.Key): LogRotation.Log
    requires log.current.Some?
  {
    log.(current := None, files := log.files[k := log.current.value])
  }

  lemma MovedStored(base: string, target: string, dir: Directory, log: LogRotation.Log,
                    k: LogRotation.Key, j: LogRotation.Key)
    requires log.current.Some? && base in dir && log.current.value == dir[base] && target !in dir
    requires j in log.files && j != k && Stored(base, dir, log.files, j)
    ensures Stored(base, (dir - {base})[target := dir[base]], MovedFile(log, k).files, j)
  {
    KeyMatches(base, j);
  }

  lemma MovedSelf(base: string, dir: Directory, log: LogRotation.Log, k: LogRotation.Key)
    requires log.current.Some? && base in dir && log.current.value == dir[base] && 1 <= k.day <= LAST_ORDINAL
    ensures Stored(base, (dir - {base})[NameOf(base, k) := dir[base]], MovedFile(log, k).files, k)
  {
    hide NameOf;
  }

  // Renaming the current file to a free name of the day archives it.
  lemma MovedRepresents(base: string, dir: Directory, log: LogRotation.Log, k: LogRotation.Key)
    requires Represents(base, dir, log) && log.current.Some? && 1 <= k.day <= LAST_ORDINAL && k !in log.files
    ensures Represents(base, (dir - {base})[NameOf(base, k) := dir[base]], MovedFile(log, k))
  {
    hide DateIn, NameOf, IsoOf, Listed, Stored;
    var target := NameOf(base, k);
    TakenIff(base, dir, log, k);
    KeyMatches(base, k);
    var dir', log' := (dir - {base})[target := dir[base]], MovedFile(log, k);
    MovedSelf(base, dir, log, k);
    forall j | j in log'.files ensures Stored(base, dir', log'.files, j) {
      if j != k {
        assert Stored(base, dir, log.files, j);
        MovedStored(base, target, dir, log, k, j);
      }
    }
    forall j: LogRotation.Key | 1 <= j.day <= LAST_ORDINAL ensures Listed(base, dir'.Keys, log'.files, j) {
      assert Listed(base, dir.Keys, log.files, j);
      MovedListed(base, dir, log, k, j);
    }
  }

  lemma MovedListed(base: string, dir: Directory, log: LogRotation.Log, k: LogRotation.Key, j: LogRotation.Key)
    requires log.current.Some? && base in dir && 1 <= k.day <= LAST_ORDINAL && 1 <= j.day <= LAST_ORDINAL
    requires Listed(base, dir.Keys, log.files, j)
    ensures Listed(base, (dir - {base})[NameOf(base, k) := dir[base]].Keys, MovedFile(log, k).files, j)
  {
    hide NameOf;
    KeysDiffer(base, j, k);
  }

  function Without(base: string, cutoff: string, dir: Directory, seen: set<string>): Directory {
    map name | name in dir && !(name in seen && Expired(base, cutoff, name)) :: dir[name]
  }

  // Of the names the handler makes, the sweep leaves exactly those of days that are not expired.
  lemma NameSurvives(base: string, dir: Directory, k: LogRotation.Key, cutoff: nat)
    requires 1 <= cutoff <= LAST_ORDINAL && 1 <= k.day <= LAST_ORDINAL
    ensures NameOf(base, k) in Without(base, IsoOf(cutoff), dir, dir.Keys) <==>
            NameOf(base, k) in dir && k.day >= cutoff
  {
    KeyMatches(base, k);
    ExpiredIffOlder(base, NameOf(base, k), k.day, cutoff);
  }

  lemma DeletedRepresents(base: string, dir: Directory, log: LogRotation.Log, cutoff: nat)
    requires Represents(base, dir, log) && 1 <= cutoff <= LAST_ORDINAL
    ensures Represents(base, Without(base, IsoOf(cutoff), dir, dir.Keys),
            log.(files := LogRotation.Since(log.files, cutoff)))
  {
    hide NameOf, IsoOf, DateIn;
    var dir' := Without(base, IsoOf(cutoff), dir, dir.Keys);
    var log' := log.(files := LogRotation.Since(log.files, cutoff));
    BaseIsNoHistory(base);
    forall j | j in log'.files ensures Stored(base, dir', log'.files, j) {
      assert Stored(base, dir, log.files, j);
      NameSurvives(base, dir, j, cutoff);
    }
    forall j: LogRotation.Key | 1 <= j.day <= LAST_ORDINAL ensures Listed(base, dir'.Keys, log'.files, j) {
      assert Listed(base, dir.Keys, log.files, j);
      NameSurvives(base, dir, j, cutoff);
    }
  }

  lemma CurrentRepresents(base: string, dir: Directory, log: LogRotation.Log, content: seq<Record>)
    requires Represents(base, dir, log)
    ensures Represents(base, dir[base := content], log.(current := Some(content)))
  {
    hide NameOf;
    var dir', log' := dir[base := content], log.(current := Some(content));
    forall j | j in log'.files ensures Stored(base, dir', log'.files, j) {
      assert Stored(base, dir, log.files, j);
      KeyMatches(base, j);
    }
    forall j: LogRotation.Key | 1 <= j.day <= LAST_ORDINAL ensures Listed(base, dir'.Keys, log'.files, j) {
      assert Listed(base, dir.Keys, log.files, j);
      KeyMatches(base, j);
    }
  }

  class DailyRotatingFileHandler {
    const base: string
    const maxBytes: int
    const retention: LogRotation.Retention
    var rolloverAt: int
    var dir: Directory
    var stream: bool                     // the current file is open
    ghost var log: LogRotation.Log

    ghost predicate Valid()
      reads this
    {
      && LogRotation.ValidLog(log) && log.rolloverAt == rolloverAt
      && Represents(base, dir, log)
      && (stream ==> base in dir)
    }

    // Over whatever files are there: `touched` is the current file's last change, or now if there
    // is none.
    constructor (base: string, maxBytes: int, retention: LogRotation.Retention, files: Directory, touched: Clock)
      ensures Valid() && !stream && dir == files && rolloverAt == LogRotation.NextMidnight(touched)
      ensures this.base == base && this.maxBytes == maxBytes && this.retention == retention
    {
      this.base, this.maxBytes, this.retention := base, maxBytes, retention;
      rolloverAt := LogRotation.NextMidnight(touched);
      dir, stream := files, false;
      ghost var found := EveryDirectory(base, files, LogRotation.NextMidnight(touched));
      log := found;
    }

    method Open()
      requires Valid()
      modifies this`dir, this`stream, this`log
      ensures Valid() && stream
      ensures log == old(log).(current := Some(LogRotation.Content(old(log))))
    {
      CurrentRepresents(base, dir, log, LogRotation.Content(log));
      if base !in dir {
        dir := dir[base := []];
      }
      log := log.(current := Some(LogRotation.Content(log)));
      assert dir == old(dir)[base := LogRotation.Content(old(log))];
      stream := true;
    }

    // Opening the stream to ask for its position may create the file, empty.
    method ShouldRollover(now: Clock, chars: nat) returns (due: bool)
      requires Valid()
      modifies this`dir, this`stream, this`log
      ensures Valid() && due == LogRotation.Due(maxBytes, old(log), now, chars)
      ensures log == old(log) || log == old(log).(current := Some(LogRotation.Content(old(log))))
      ensures due ==> log == old(log) || old(log).current.Some?
      ensures due <==> now >= rolloverAt || (maxBytes > 0 && base in old(dir) && old(dir)[base] != []
                         && LogRotation.Size(old(dir)[base]) + chars + 1 >= maxBytes)
    {
      if now >= rolloverAt {
        return true;
      }
      if maxBytes <= 0 {
        return false;
      }
      if !stream {
        Open();
      }
      var position := LogRotation.Size(dir[base]);
      due := position > 0 && position + chars + 1 >= maxBytes;
    }

    // The sweep over a listing of the directory.
    method RemoveExpired(cutoff: string)
      modifies this`dir
      ensures dir == Without(base, cutoff, old(dir), old(dir).Keys)
    {
      var names := dir.Keys;
      var todo := names;
      while todo != {}
        invariant todo <= names && names == old(dir).Keys
        invariant dir == Without(base, cutoff, old(dir), names - todo)
        decreases todo
      {
        var name :| name in todo;
        if Expired(base, cutoff, name) {
          dir := dir - {name};
        }
        todo := todo - {name};
      }
      assert names - todo == names;
    }

    method DeleteOld(now: Clock)
      requires Represents(base, dir, log)
      modifies this`dir, this`log
      ensures Represents(base, dir, log)
      ensures log == old(log).(files := LogRotation.DeleteExpired(retention, now, old(log).files))
      ensures dir == if retention <= 0 then old(dir) else Without(base, IsoOf(DayOf(now) - retention), old(dir),
              old(dir).Keys)
      ensures retention > 0 ==> forall name :: name in dir ==> !Expired(base, IsoOf(DayOf(now) - retention), name)
    {
      hide DateIn, Name, IsoOf, Expired, Represents;
      if retention <= 0 {
        return;
      }
      var cutoff := DayOf(now) - retention;
      DeletedRepresents(base, dir, log, cutoff);
      RemoveExpired(IsoOf(cutoff));
      log := log.(files := LogRotation.Since(log.files, cutoff));
    }

    // The first free name of the day.
    method FreeName(day: nat) returns (target: string)
      requires Represents(base, dir, log) && 1 <= day <= LAST_ORDINAL
      ensures target == NameOf(base, LogRotation.Key(day, LogRotation.FirstFree(log.files, day, 0)))
      ensures target !in dir && target != base
    {
      hide DateIn, Name, IsoOf, Represents;
      var number := 0;
      target := NameOf(base, LogRotation.Key(day, number));
      TakenIff(base, dir, log, LogRotation.Key(day, number));
      while target in dir
        invariant target == NameOf(base, LogRotation.Key(day, number))
        invariant number <= LogRotation.FirstFree(log.files, day, 0)
        invariant target in dir <==> LogRotation.Key(day, number) in log.files
        decreases LogRotation.FirstFree(log.files, day, 0) - number
      {
        number := number + 1;
        target := NameOf(base, LogRotation.Key(day, number));
        TakenIff(base, dir, log, LogRotation.Key(day, number));
      }
      KeyMatches(base, LogRotation.Key(day, number));
    }

    // Rename the current file, if there is one, to the first free name of the day.
    method MoveCurrent(day: nat)
      requires Represents(base, dir, log) && 1 <= day <= LAST_ORDINAL
      modifies this`dir, this`log
      ensures Represents(base, dir, log) && log == LogRotation.Archive(old(log), day)
    {
      if base in dir {
        var target := FreeName(day);
        ghost var key := LogRotation.Key(day, LogRotation.FirstFree(log.files, day, 0));
        MovedRepresents(base, dir, log, key);
        dir := (dir - {base})[target := dir[base]];
        log := MovedFile(log, key);
      }
    }

    method DoRollover(now: Clock)
      requires Valid()
      modifies this
      ensures Valid() && log == LogRotation.Rollover(retention, old(log), now)
      ensures retention > 0 ==> forall name :: name in dir ==> !Expired(base, IsoOf(DayOf(now) - retention), name)
    {
      hide DateIn, Name, IsoOf, Listed, Stored, Without, Expired;
      var day: nat;
      if now >= rolloverAt {
        day := DayOf(rolloverAt - DAY);
        rolloverAt := LogRotation.NextMidnight(now);
      } else {
        day := DayOf(now);
      }
      stream := false;
      MoveCurrent(day);
      DeleteOld(now);
      log := log.(rolloverAt := rolloverAt);
    }

    // Roll over if due, then append. Two clock readings: one to ask, one to roll over.
    method EmitRecord(t1: Clock, t2: Clock, text: nat, chars: nat, bytes: nat)
      requires Valid()
      modifies this
      ensures Valid() && log == LogRotation.Emit(maxBytes, retention, old(log), t1, t2, text, chars, bytes)
      ensures stream && base in dir && dir[base] != []
      ensures
        var due := t1 >= old(rolloverAt) || (maxBytes > 0 && base in old(dir) && old(dir)[base] != []
                     && LogRotation.Size(old(dir)[base]) + chars + 1 >= maxBytes);
        var r := LogRotation.Record(text, chars, bytes, if due then t2 else t1);
        dir[base] == (if due || base !in old(dir) then [r] else old(dir)[base] + [r])
    {
      var due := ShouldRollover(t1, chars);
      if due {
        DoRollover(t2);
      }
      if !stream {
        Open();
      }
      var record := LogRotation.Record(text, chars, bytes, if due then t2 else t1);
      CurrentRepresents(base, dir, log, dir[base] + [record]);
      dir := dir[base := dir[base] + [record]];
      log := LogRotation.Append(log, record);
    }
  }
}
