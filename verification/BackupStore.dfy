/** The backup directory: three files per backup, validated, then pruned to the newest ones. */
module BackupStore {
  import opened Options
  import opened Text
  import opened BackupNames
  import opened Retention

  newtype Byte = b: int | 0 <= b < 256
  type Bytes = seq<Byte>

  /** gzip and SHA-256 are not modelled; they are whatever functions the codec holds. */
  datatype Codec = Codec(compress: Bytes -> Bytes, inflate: Bytes -> Option<Bytes>, digest: Bytes -> string)

  /** What gzip promises: its output carries the gzip magic and inflates to its input. */
  ghost predicate Lawful(codec: Codec) {
    forall data :: var gz := codec.compress(data);
      |gz| >= 2 && gz[..2] == [0x1f, 0x8b] && codec.inflate(gz) == Some(data)
  }

  datatype Check = Check(ok: bool, size: nat, checksum: string, gzipOk: bool)

  /** `validate_dump_bytes` */
  function Validate(codec: Codec, data: Bytes): Check {
    var magic := |data| >= 2 && data[..2] == [0x1f, 0x8b];
    var gzipOk := magic && codec.inflate(data).Some?;
    Check(|data| > 0 && (!magic || gzipOk), |data|, codec.digest(data), gzipOk)
  }

  datatype Content = Binary(bytes: Bytes) | Note(text: string)
  type Dir = map<string, Content>

  datatype Backup = Backup(stamp: Stamp, sql: Bytes)

  function Archive(codec: Codec, b: Backup): Bytes { codec.compress(b.sql) }

  function DigestLine(codec: Codec, b: Backup): string {
    codec.digest(Archive(codec, b)) + "  " + GzName(b.stamp) + "\n"
  }

  /** The backup passes the check `persist` makes on the compressed bytes. */
  predicate PassesCheck(codec: Codec, b: Backup) {
    Validate(codec, Archive(codec, b)).ok
  }

  lemma LawfulArchivePasses(codec: Codec, b: Backup)
    requires Lawful(codec)
    ensures PassesCheck(codec, b) && codec.inflate(Archive(codec, b)) == Some(b.sql)
  {
    assert codec.compress(b.sql)[..2] == [0x1f, 0x8b];
  }

  // ---------- persist ----------

  /** The directory after `_enforce_retention`. */
  function Prune(dir: Dir, retention: int): Dir {
    map f | f in Remaining(dir.Keys, retention) :: dir[f]
  }

  /** `persist` before its check: the plain and the compressed dump are in place. */
  function WithPair(codec: Codec, dir: Dir, b: Backup): (r: Dir)
    ensures r.Keys == dir.Keys + {SqlName(b.stamp), GzName(b.stamp)}
  {
    dir[SqlName(b.stamp) := Binary(b.sql)][GzName(b.stamp) := Binary(Archive(codec, b))]
  }

  /** `persist` before the pruning: all three files of a passing backup are in place. */
  function WithTriple(codec: Codec, dir: Dir, b: Backup): (r: Dir)
    ensures r.Keys == dir.Keys + FilesOf(b.stamp)
  {
    WithPair(codec, dir, b)[ShaName(b.stamp) := Note(DigestLine(codec, b))]
  }

  /** A failing backup's two files are removed again. */
  function WithoutPair(codec: Codec, dir: Dir, b: Backup): Dir {
    WithPair(codec, dir, b) - {SqlName(b.stamp), GzName(b.stamp)}
  }

  function PersistedDir(codec: Codec, retention: int, dir: Dir, b: Backup): Dir {
    if PassesCheck(codec, b) then Prune(WithTriple(codec, dir, b), retention) else WithoutPair(codec, dir, b)
  }

  // ---------- what the directory holds ----------

  function Stamps(bs: seq<Backup>): (ss: seq<Stamp>)
    ensures |ss| == |bs| && forall i | 0 <= i < |bs| :: ss[i] == bs[i].stamp
  {
    seq(|bs|, i requires 0 <= i < |bs| => bs[i].stamp)
  }

  predicate HoldsBackup(codec: Codec, dir: Dir, b: Backup) {
    SqlName(b.stamp) in dir && dir[SqlName(b.stamp)] == Binary(b.sql) &&
    GzName(b.stamp) in dir && dir[GzName(b.stamp)] == Binary(Archive(codec, b)) &&
    ShaName(b.stamp) in dir && dir[ShaName(b.stamp)] == Note(DigestLine(codec, b))
  }

  ghost predicate HoldsAll(codec: Codec, dir: Dir, kept: seq<Backup>) {
    forall i | 0 <= i < |kept| :: HoldsBackup(codec, dir, kept[i])
  }

  /** The directory holds the complete triple of every listed backup and no other file. */
  ghost predicate HoldsExactly(codec: Codec, dir: Dir, kept: seq<Backup>) {
    FilesOfAll(dir.Keys, Stamps(kept)) && HoldsAll(codec, dir, kept)
  }

  /** A backup keeps its contents in any directory that keeps its three files. */
  lemma HoldsInSubdir(codec: Codec, dir: Dir, sub: Dir, b: Backup)
    requires HoldsBackup(codec, dir, b) && FilesOf(b.stamp) <= sub.Keys
    requires forall f | f in sub && f in FilesOf(b.stamp) :: f in dir && sub[f] == dir[f]
    ensures HoldsBackup(codec, sub, b)
  {
  }

  lemma StampsOfNewest(retention: int, bs: seq<Backup>)
    ensures Stamps(Newest(retention, bs)) == Newest(retention, Stamps(bs))
  {
  }

  /** Pruning leaves exactly the newest backups, complete, and nothing of the others. */
  lemma PruneKeepsNewest(codec: Codec, dir: Dir, kept: seq<Backup>, retention: int)
    requires InOrder(Stamps(kept)) && HoldsExactly(codec, dir, kept)
    ensures HoldsExactly(codec, Prune(dir, retention), Newest(retention, kept))
  {
    hide FilesOf, HoldsBackup, Remaining, InOrder;
    var rest := Newest(retention, kept);
    var pruned := Prune(dir, retention);
    StampsOfNewest(retention, kept);
    NewestRemain(dir.Keys, Stamps(kept), retention);
    assert pruned.Keys == Remaining(dir.Keys, retention);
    forall i | 0 <= i < |rest| ensures HoldsBackup(codec, pruned, rest[i]) {
      assert rest[i] == kept[i + |kept| - |rest|];
      forall f | f in FilesOf(rest[i].stamp) ensures f in pruned { assert BelongsAt(Stamps(rest), i, f); }
      HoldsInSubdir(codec, dir, pruned, rest[i]);
    }
  }

  predicate Ordered(bs: seq<Backup>) { InOrder(Stamps(bs)) }

  lemma TripleInPlace(codec: Codec, dir: Dir, b: Backup)
    requires b.stamp.Valid()
    ensures HoldsBackup(codec, WithTriple(codec, dir, b), b)
    ensures forall f | f in dir && f !in FilesOf(b.stamp) :: WithTriple(codec, dir, b)[f] == dir[f]
  {
    NamesAreDistinct(b.stamp, b.stamp);
  }

  lemma StampsOfAppend(bs: seq<Backup>, b: Backup)
    ensures Stamps(bs + [b]) == Stamps(bs) + [b.stamp]
  {
  }

  lemma TripleJoins(codec: Codec, dir: Dir, kept: seq<Backup>, b: Backup)
    requires Ordered(kept + [b]) && HoldsExactly(codec, dir, kept)
    ensures HoldsExactly(codec, WithTriple(codec, dir, b), kept + [b])
    ensures dir.Keys !! FilesOf(b.stamp)
  {
    hide FilesOf, HoldsBackup, WithTriple;
    StampsOfAppend(kept, b);
    assert Stamps(kept + [b])[|kept|] == b.stamp;
    FilesWithNew(dir.Keys, Stamps(kept), b.stamp);
    TripleInPlace(codec, dir, b);
    var full := WithTriple(codec, dir, b);
    forall i | 0 <= i < |kept + [b]| ensures HoldsBackup(codec, full, (kept + [b])[i]) {
      if i < |kept| {
        forall f | f in FilesOf(kept[i].stamp) ensures f in dir { assert BelongsAt(Stamps(kept), i, f); }
        HoldsInSubdir(codec, dir, full, kept[i]);
      }
    }
  }

  lemma PairRemoved(codec: Codec, dir: Dir, b: Backup)
    requires dir.Keys !! FilesOf(b.stamp)
    ensures WithoutPair(codec, dir, b) == dir
  {
  }

  /** One `persist` after older ones: the new backup joins and only the oldest may go;
      a backup failing its check leaves the directory as it was. */
  lemma PersistStep(codec: Codec, retention: int, dir: Dir, kept: seq<Backup>, b: Backup)
    requires Ordered(kept + [b]) && HoldsExactly(codec, dir, kept)
    ensures PassesCheck(codec, b) ==>
              HoldsExactly(codec, PersistedDir(codec, retention, dir, b), Newest(retention, kept + [b]))
    ensures !PassesCheck(codec, b) ==> PersistedDir(codec, retention, dir, b) == dir
  {
    hide HoldsExactly, PassesCheck, FilesOf, WithTriple, WithoutPair, InOrder;
    TripleJoins(codec, dir, kept, b);
    PairRemoved(codec, dir, b);
    PruneKeepsNewest(codec, WithTriple(codec, dir, b), kept + [b], retention);
  }

  // ---------- any sequence of persists ----------

  function PersistAll(codec: Codec, retention: int, bs: seq<Backup>): Dir {
    if bs == [] then map[]
    else PersistedDir(codec, retention, PersistAll(codec, retention, bs[..|bs| - 1]), bs[|bs| - 1])
  }

  function Passing(codec: Codec, bs: seq<Backup>): seq<Backup> {
    if bs == [] then []
    else Passing(codec, bs[..|bs| - 1]) + (if PassesCheck(codec, bs[|bs| - 1]) then [bs[|bs| - 1]] else [])
  }

  predicate AllEarlier(bs: seq<Backup>, s: Stamp) {
    forall i | 0 <= i < |bs| :: Earlier(bs[i].stamp, s)
  }

  lemma {:induction false} PassingIsOrdered(codec: Codec, bs: seq<Backup>)
    requires Ordered(bs)
    ensures Ordered(Passing(codec, bs))
    ensures forall s | AllEarlier(bs, s) :: AllEarlier(Passing(codec, bs), s)
  {
    if bs != [] {
      var front, last := bs[..|bs| - 1], bs[|bs| - 1];
      assert forall i | 0 <= i < |front| :: Stamps(front)[i] == Stamps(bs)[i];
      assert Stamps(bs)[|bs| - 1] == last.stamp;
      PassingIsOrdered(codec, front);
      assert AllEarlier(front, last.stamp);
      StampsOfAppend(Passing(codec, front), last);
    }
  }

  lemma OrderedAppend(bs: seq<Backup>, b: Backup)
    ensures Ordered(bs + [b]) <==> Ordered(bs) && b.stamp.Valid() && AllEarlier(bs, b.stamp)
  {
    StampsOfAppend(bs, b);
    var all := Stamps(bs) + [b.stamp];
    assert all[|bs|] == b.stamp;
    assert forall i | 0 <= i < |bs| :: all[i] == Stamps(bs)[i];
  }

  lemma NewestAppend(retention: int, bs: seq<Backup>, b: Backup)
    requires Ordered(bs + [b])
    ensures Ordered(Newest(retention, bs) + [b])
    ensures Newest(retention, Newest(retention, bs) + [b]) == Newest(retention, bs + [b])
  {
    OrderedAppend(bs, b);
    StampsOfNewest(retention, bs);
    OrderedAppend(Newest(retention, bs), b);
  }

  /** After any persists in time order the directory holds exactly the newest `retention`
      of the backups that passed their check: complete triples, no orphan files. */
  lemma {:induction false} DirectoryHoldsNewest(codec: Codec, retention: int, bs: seq<Backup>)
    requires Ordered(bs)
    ensures HoldsExactly(codec, PersistAll(codec, retention, bs), Newest(retention, Passing(codec, bs)))
    decreases |bs|
  {
    hide HoldsExactly, PersistedDir, PassesCheck;
    if bs == [] {
      EmptyDirectory(codec);
    } else {
      var front, last := bs[..|bs| - 1], bs[|bs| - 1];
      assert front + [last] == bs;
      OrderedAppend(front, last);
      DirectoryHoldsNewest(codec, retention, front);
      PassingIsOrdered(codec, front);
      var kept := Passing(codec, front);
      OrderedAppend(kept, last);
      NewestAppend(retention, kept, last);
      assert kept + [] == kept;
      PersistStep(codec, retention, PersistAll(codec, retention, front), Newest(retention, kept), last);
    }
  }

  lemma EmptyDirectory(codec: Codec)
    ensures HoldsExactly(codec, map[], [])
  {
    assert Stamps([]) == [];
  }

  /** With no assumption on the clock: the file just written outlives its own pruning
      if and only if fewer than `retention` listed names sort after it. */
  lemma FreshBackupSurvivesIff(codec: Codec, retention: int, dir: Dir, b: Backup)
    requires PassesCheck(codec, b)
    ensures GzName(b.stamp) in PersistedDir(codec, retention, dir, b)
            <==> retention <= 0 || |Later(Listed(dir.Keys), GzName(b.stamp))| < retention
  {
    var gz := GzName(b.stamp);
    var full := WithTriple(codec, dir, b);
    OnlyGzIsListed(b.stamp);
    BeforeIrreflexive(gz);
    assert Later(Listed(full.Keys), gz) == Later(Listed(dir.Keys), gz);
    ListedSurvivesIff(full.Keys, retention, gz);
  }
}
