/** What each call and each step of a job does, in any state, said of files, records and databases alone. */
module BackupSteps {
  import opened Options
  import opened Text
  import opened BackupNames
  import opened Retention
  import opened BackupStore
  import opened BackupJobs

  // ---------- the check of a dump ----------

  /** The bytes begin like a gzip file. */
  ghost predicate LooksZipped(data: Bytes) { exists rest: Bytes :: data == [0x1f, 0x8b] + rest }

  /** The bytes are not nothing, and if they look zipped they can be unzipped. */
  ghost predicate Sound(codec: Codec, data: Bytes) {
    data != [] && (LooksZipped(data) ==> codec.inflate(data).Some?)
  }

  lemma ValidationMeans(codec: Codec, data: Bytes)
    ensures var check := Validate(codec, data);
      (check.ok <==> Sound(codec, data)) && check.size == |data| && check.checksum == codec.digest(data) &&
      (check.gzipOk <==> LooksZipped(data) && codec.inflate(data).Some?)
  {
    if |data| >= 2 { assert data == data[..2] + data[2..]; }
  }

  // ---------- what a step leaves in a record ----------

  /** The record and the job of the step's own record are ended by an exception. */
  predicate EndedByError(s: State, t: State, id: nat) {
    s.Has(id) && t.records == s.records[id - 1 := s.Get(id).(status := Failed, report := ErrorReport)] &&
    t.jobs == s.jobs - {id}
  }

  /** The step goes on with the job. */
  predicate GoesOnWith(s: State, t: State, id: nat, job: Job) {
    t.records == s.records && t.jobs == s.jobs[id := job]
  }

  /** A file holds this, and no other file of the directory is touched. */
  predicate OnlyFile(before: Dir, after: Dir, name: string, content: Content) {
    after.Keys == before.Keys + {name} && after[name] == content &&
    forall f | f in before && f != name :: after[f] == before[f]
  }

  // ---------- what a name says ----------

  /** A fixed-width numeral denotes its number. */
  lemma {:induction false} PadDenotes(n: nat, w: nat)
    requires n < Pow10(w)
    ensures NumeralValue(Pad(n, w)) == n
  {
    if w > 0 {
      PadDenotes(n / 10, w - 1);
      assert Pad(n, w)[..|Pad(n, w)| - 1] == Pad(n / 10, w - 1);
      assert Pad(n, w)[0] in Pad(n, w);
    }
  }

  lemma Powers()
    ensures Pow10(2) == 100 && Pow10(4) == 10000 && Pow10(6) == 1000000
  {
    assert Pow10(3) == 1000;
    assert Pow10(5) == 100000;
  }

  /** The stem of a valid timestamp reads back field by field: `easyops-`, year, month, day, a dash, hour,
      minute, second, a dash, and the microseconds. */
  lemma StemMeans(s: Stamp)
    requires s.Valid()
    ensures var t := Stem(s);
      t[..8] == "easyops-" && NumeralValue(t[8..12]) == s.year && NumeralValue(t[12..14]) == s.month &&
      NumeralValue(t[14..16]) == s.day && t[16] == '-' && NumeralValue(t[17..19]) == s.hour &&
      NumeralValue(t[19..21]) == s.minute && NumeralValue(t[21..23]) == s.second && t[23] == '-' &&
      NumeralValue(t[24..30]) == s.micro
  {
    hide Pad, NumeralValue, Pow10;
    Powers();
    PadDenotes(s.year, 4);
    PadDenotes(s.month, 2);
    PadDenotes(s.day, 2);
    PadDenotes(s.hour, 2);
    PadDenotes(s.minute, 2);
    PadDenotes(s.second, 2);
    PadDenotes(s.micro, 6);
    var t := Stem(s);
    assert t[..8] == "easyops-";
    assert t[8..12] == Pad(s.year, 4) && t[12..14] == Pad(s.month, 2) && t[14..16] == Pad(s.day, 2);
    assert t[17..19] == Pad(s.hour, 2) && t[19..21] == Pad(s.minute, 2) && t[21..23] == Pad(s.second, 2);
    assert t[24..30] == Pad(s.micro, 6);
  }

  // ---------- calls ----------

  /** A backup call adds a running record without file or verdict, and asks for its job. */
  lemma CreatingMeans(cfg: Config, s: State)
    ensures var t := Step(cfg, s, CreateBackup);
      t == s.(records := s.records + [Record(BackupOp, Running, None, false, NoReport)],
              pending := s.pending + {BackupTask(|s.records| + 1)})
  {
  }

  /** A restore call is granted exactly for a record of a backup that succeeded with its checksum
      verified; it then adds a running record that points at it and asks for its job. */
  lemma AskingMeans(cfg: Config, s: State, backup: nat)
    ensures var t := Step(cfg, s, AskRestore(backup));
      if 1 <= backup <= |s.records| && s.records[backup - 1].op == BackupOp &&
         s.records[backup - 1].status == Succeeded && s.records[backup - 1].checksumOk
      then t == s.(records := s.records + [Record(RestoreOp, Running, None, false, RestoreFrom(backup))],
                   pending := s.pending + {RestoreTask(|s.records| + 1)})
      else t == s
  {
  }

  // ---------- backup steps ----------

  lemma DumpingMeans(cfg: Config, s: State, id: nat, dump: Option<Bytes>)
    requires Enabled(s, TakeDump(id, dump))
    ensures var t := Step(cfg, s, TakeDump(id, dump));
      t == s.(records := t.records, jobs := t.jobs, pending := s.pending - {BackupTask(id)}) &&
      match dump
      case None => EndedByError(s, t, id)
      case Some(sql) => GoesOnWith(s, t, id, Dumped(sql))
  {
  }

  /** Both files of the pair hold the dump, plain and compressed, under the names of the timestamp. */
  lemma WritingMeans(cfg: Config, s: State, id: nat, stamp: Stamp)
    requires Enabled(s, WritePair(id, stamp))
    ensures var t, sql := Step(cfg, s, WritePair(id, stamp)), s.jobs[id].sql;
      t == s.(dir := t.dir, jobs := t.jobs, written := s.written[stamp := Dump(id, sql)]) &&
      GoesOnWith(s, t, id, Paired(Backup(stamp, sql))) &&
      t.dir.Keys == s.dir.Keys + {Stem(stamp) + ".sql", Stem(stamp) + ".sql.gz"} &&
      t.dir[Stem(stamp) + ".sql"] == Binary(sql) && t.dir[Stem(stamp) + ".sql.gz"] == Binary(cfg.codec.compress(sql)) &&
      forall f | f in s.dir && f !in {Stem(stamp) + ".sql", Stem(stamp) + ".sql.gz"} :: t.dir[f] == s.dir[f]
  {
    hide Stem;
    assert |Stem(stamp) + ".sql"| != |Stem(stamp) + ".sql.gz"|;
  }

  /** The check reads the compressed file back. A missing file ends the job; an unsound one is removed with
      its pair and ends the job; a sound one is remembered by its checksum. */
  lemma CheckingMeans(cfg: Config, s: State, id: nat)
    requires Enabled(s, CheckPair(id))
    ensures var t, b := Step(cfg, s, CheckPair(id)), s.jobs[id].backup; var gz := Stem(b.stamp) + ".sql.gz";
      t == s.(dir := t.dir, records := t.records, jobs := t.jobs) &&
      if gz !in s.dir || !s.dir[gz].Binary? then EndedByError(s, t, id) && t.dir == s.dir
      else if Sound(cfg.codec, s.dir[gz].bytes)
      then GoesOnWith(s, t, id, Checked(b, cfg.codec.digest(s.dir[gz].bytes))) && t.dir == s.dir
      else EndedByError(s, t, id) && t.dir == s.dir - {Stem(b.stamp) + ".sql", gz}
  {
    hide Stem, Sound, Validate;
    var gz := GzName(s.jobs[id].backup.stamp);
    if gz in s.dir && s.dir[gz].Binary? { ValidationMeans(cfg.codec, s.dir[gz].bytes); }
  }

  /** The digest file says checksum and name of the compressed file. It is late if that file is gone. */
  lemma DigestMeans(cfg: Config, s: State, id: nat)
    requires Enabled(s, WriteDigest(id))
    ensures var t, b := Step(cfg, s, WriteDigest(id)), s.jobs[id].backup; var gz := Stem(b.stamp) + ".sql.gz";
      t == s.(dir := t.dir, jobs := t.jobs, late := t.late) && GoesOnWith(s, t, id, Digested(b)) &&
      OnlyFile(s.dir, t.dir, Stem(b.stamp) + ".sha256", Note(s.jobs[id].checksum + "  " + gz + "\n")) &&
      t.late == if gz in s.dir then s.late else s.late + {b.stamp}
  {
    hide Stem;
  }

  /** The compressed files in a directory that sort after a name. */
  function LaterGz(dir: Dir, name: string): set<string> {
    set g | g in dir && EndsWith(g, ".sql.gz") && Before(name, g)
  }

  /** Retention is on, a compressed file of this stem has at least so many later ones, and `f` is that file
      or the plain dump or the digest beside it. */
  predicate GoesWith(dir: Dir, retention: int, stem: string, f: string) {
    stem + ".sql.gz" in dir && retention > 0 && |LaterGz(dir, stem + ".sql.gz")| >= retention &&
    f in {stem + ".sql.gz", stem + ".sql", stem + ".sha256"}
  }

  ghost predicate Goes(dir: Dir, retention: int, f: string) { exists stem :: GoesWith(dir, retention, stem, f) }

  lemma PruningMeans(cfg: Config, s: State, id: nat)
    requires Enabled(s, PruneOld(id))
    ensures var t := Step(cfg, s, PruneOld(id));
      t == s.(dir := t.dir, jobs := t.jobs) && GoesOnWith(s, t, id, Trimmed(s.jobs[id].backup)) &&
      forall f :: (f in t.dir <==> f in s.dir && !Goes(s.dir, cfg.retention, f)) &&
                  (f in t.dir ==> t.dir[f] == s.dir[f])
  {
    hide Goes, IsDoomed;
    forall f ensures IsDoomed(s.dir.Keys, cfg.retention, f) <==> Goes(s.dir, cfg.retention, f) {
      DoomMeans(s.dir, cfg.retention, f);
    }
  }

  lemma DoomMeans(dir: Dir, retention: int, f: string)
    ensures IsDoomed(dir.Keys, retention, f) <==> Goes(dir, retention, f)
  {
    hide Before, EndsWith;
    forall name: string ensures Later(Listed(dir.Keys), name) == LaterGz(dir, name) {}
    if gz :| gz in Expired(dir.Keys, retention) && f in Companions(gz) {
      StemEnds(gz);
      assert GoesWith(dir, retention, StemOf(gz), f);
    }
    if stem :| GoesWith(dir, retention, stem, f) {
      StemBack(stem);
      assert stem + ".sql.gz" in Expired(dir.Keys, retention);
    }
  }

  lemma StemEnds(gz: string)
    requires EndsWith(gz, GZ)
    ensures StemOf(gz) + ".sql.gz" == gz
  {
  }

  lemma StemBack(stem: string)
    ensures EndsWith(stem + ".sql.gz", GZ) && StemOf(stem + ".sql.gz") == stem
  {
    assert (stem + ".sql.gz")[|stem|..] == ".sql.gz";
  }

  /** The final commit: an error if the file is there and the statistics are not; otherwise the record names
      the file, says whether it is there and sound, and reports that. */
  lemma ConcludingMeans(cfg: Config, s: State, id: nat, tables: Option<nat>)
    requires Enabled(s, Conclude(id, tables))
    ensures var t, gz := Step(cfg, s, Conclude(id, tables)), Stem(s.jobs[id].backup.stamp) + ".sql.gz";
      t == s.(records := t.records, jobs := s.jobs - {id}) &&
      if gz in s.dir && tables.None? then EndedByError(s, t, id)
      else
        var good := gz in s.dir && s.dir[gz].Binary? && Sound(cfg.codec, s.dir[gz].bytes);
        t.records == s.records[id - 1 :=
          Record(s.Get(id).op, if good then Succeeded else Failed, Some(gz), good, Finished(good))]
  {
    hide Stem, Sound, Validate;
    var gz := GzName(s.jobs[id].backup.stamp);
    if gz in s.dir && s.dir[gz].Binary? { ValidationMeans(cfg.codec, s.dir[gz].bytes); }
  }

  // ---------- restore steps ----------

  /** The restore reads the file its source record names. Without source record, name or readable file it
      ends in an error. */
  lemma FetchingMeans(cfg: Config, s: State, id: nat)
    requires Enabled(s, Fetch(id))
    ensures var t := Step(cfg, s, Fetch(id)); var report := s.Get(id).report;
      t == s.(records := t.records, jobs := t.jobs, pending := s.pending - {RestoreTask(id)}) &&
      if report.RestoreFrom? && 1 <= report.source <= |s.records| && s.records[report.source - 1].filePath.Some? &&
         var path := s.records[report.source - 1].filePath.value;
         path != "" && path in s.dir && s.dir[path].Binary? && cfg.codec.inflate(s.dir[path].bytes).Some?
      then
        var path := s.records[report.source - 1].filePath.value;
        GoesOnWith(s, t, id, Fetched(cfg.codec.inflate(s.dir[path].bytes).value))
      else EndedByError(s, t, id)
  {
  }

  /** The import: the target keeps what it had only if it was not even dropped; it is gone if it was not
      created again, and otherwise holds the dump, or part of it if the import failed. */
  lemma ImportingMeans(cfg: Config, s: State, id: nat, outcome: ImportOutcome)
    requires Enabled(s, Import(id, outcome))
    ensures var t, target, sql := Step(cfg, s, Import(id, outcome)), cfg.database + "_restore", s.jobs[id].sql;
      t == s.(records := t.records, jobs := t.jobs, databases := t.databases) &&
      t.databases - {target} == s.databases - {target} &&
      (match outcome
       case BootstrapFails(dropped) => if dropped then target !in t.databases else t.databases == s.databases
       case ImportFails => target in t.databases && t.databases[target] == PartlyLoaded(sql)
       case StatsRaise => target in t.databases && t.databases[target] == Loaded(sql)
       case ImportDone(_) => target in t.databases && t.databases[target] == Loaded(sql)) &&
      if outcome.ImportDone? then GoesOnWith(s, t, id, Imported(sql)) else EndedByError(s, t, id)
  {
  }

  lemma FinishingMeans(cfg: Config, s: State, id: nat)
    requires Enabled(s, Finish(id))
    ensures var t := Step(cfg, s, Finish(id));
      t == s.(records := s.records[id - 1 := s.Get(id).(status := Succeeded, report := Finished(true))],
              jobs := s.jobs - {id})
  {
  }
}
