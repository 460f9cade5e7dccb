/** The names `persist` gives its files, and why sorting them sorts backups by time. */
module BackupNames {
  import opened Text

  /** The fields of `datetime.now()`. */
  datatype Stamp = Stamp(year: nat, month: nat, day: nat, hour: nat, minute: nat, second: nat, micro: nat) {
    /** Every datetime whose year has four digits. */
    predicate Valid() {
      1000 <= year <= 9999 && 1 <= month <= 12 && 1 <= day <= 31 &&
      hour < 24 && minute < 60 && second < 60 && micro < 1000000
    }
  }

  /** Chronological order. */
  predicate Earlier(a: Stamp, b: Stamp) {
    if a.year != b.year then a.year < b.year
    else if a.month != b.month then a.month < b.month
    else if a.day != b.day then a.day < b.day
    else if a.hour != b.hour then a.hour < b.hour
    else if a.minute != b.minute then a.minute < b.minute
    else if a.second != b.second then a.second < b.second
    else a.micro < b.micro
  }

  const SQL: string := ".sql"
  const GZ: string := ".sql.gz"
  const SHA: string := ".sha256"

  /** `easyops-%Y%m%d-%H%M%S-%f` */
  function Stem(s: Stamp): (r: string)
    ensures |r| == 30
  {
    "easyops-" + (Pad(s.year, 4) + (Pad(s.month, 2) + (Pad(s.day, 2) +
      ("-" + (Pad(s.hour, 2) + (Pad(s.minute, 2) + (Pad(s.second, 2) + ("-" + Pad(s.micro, 6)))))))))
  }

  function SqlName(s: Stamp): string { Stem(s) + SQL }
  function GzName(s: Stamp): string { Stem(s) + GZ }
  function ShaName(s: Stamp): string { Stem(s) + SHA }

  function TimePart(s: Stamp, ext: string): string {
    Pad(s.hour, 2) + (Pad(s.minute, 2) + (Pad(s.second, 2) + ("-" + (Pad(s.micro, 6) + ext))))
  }

  lemma TimePartOrder(a: Stamp, b: Stamp, ext: string)
    requires a.Valid() && b.Valid()
    ensures Before(TimePart(a, ext), TimePart(b, ext)) <==>
            Earlier(a.(year := b.year, month := b.month, day := b.day), b)
  {
    var (xa, xb) := (Pad(a.micro, 6) + ext, Pad(b.micro, 6) + ext);
    var (sa, sb) := (Pad(a.second, 2) + ("-" + xa), Pad(b.second, 2) + ("-" + xb));
    var (ma, mb) := (Pad(a.minute, 2) + sa, Pad(b.minute, 2) + sb);
    assert Pow10(2) == 100 && Pow10(6) == 1000000 by { assert Pow10(3) == 1000; }
    BeforeIrreflexive(ext);
    PadOrder(a.micro, b.micro, 6, ext, ext);
    BeforeSkipsCommonPrefix("-", xa, xb);
    PadOrder(a.second, b.second, 2, "-" + xa, "-" + xb);
    PadOrder(a.minute, b.minute, 2, sa, sb);
    PadOrder(a.hour, b.hour, 2, ma, mb);
  }

  function DatePart(s: Stamp, rest: string): string {
    Pad(s.year, 4) + (Pad(s.month, 2) + (Pad(s.day, 2) + ("-" + rest)))
  }

  lemma DatePartOrder(a: Stamp, b: Stamp, x: string, y: string)
    requires a.Valid() && b.Valid()
    ensures Before(DatePart(a, x), DatePart(b, y)) <==>
            if a.year != b.year then a.year < b.year
            else if a.month != b.month then a.month < b.month
            else if a.day != b.day then a.day < b.day
            else Before(x, y)
  {
    var (da, db) := (Pad(a.day, 2) + ("-" + x), Pad(b.day, 2) + ("-" + y));
    assert Pow10(2) == 100 && Pow10(4) == 10000 by { assert Pow10(3) == 1000; }
    BeforeSkipsCommonPrefix("-", x, y);
    PadOrder(a.day, b.day, 2, "-" + x, "-" + y);
    PadOrder(a.month, b.month, 2, da, db);
    PadOrder(a.year, b.year, 4, Pad(a.month, 2) + da, Pad(b.month, 2) + db);
  }

  lemma StemParts(s: Stamp, ext: string)
    ensures Stem(s) + ext == "easyops-" + DatePart(s, TimePart(s, ext))
  {
    var name := "easyops-" + DatePart(s, TimePart(s, ext));
    assert |name| == 30 + |ext|;
    forall i | 0 <= i < |name| ensures (Stem(s) + ext)[i] == name[i] {}
  }

  /** Names with one extension are ordered as strings exactly as their times are. */
  lemma NameOrderIsTimeOrder(a: Stamp, b: Stamp, ext: string)
    requires a.Valid() && b.Valid()
    ensures Before(Stem(a) + ext, Stem(b) + ext) <==> Earlier(a, b)
  {
    var (x, y) := (TimePart(a, ext), TimePart(b, ext));
    StemParts(a, ext);
    StemParts(b, ext);
    BeforeSkipsCommonPrefix("easyops-", DatePart(a, x), DatePart(b, y));
    DatePartOrder(a, b, x, y);
    TimePartOrder(a, b, ext);
  }

  /** `old[:-len('.sql.gz')]` */
  function StemOf(gz: string): string
    requires EndsWith(gz, GZ)
  {
    gz[..|gz| - |GZ|]
  }

  /** The three files of one backup have different names, and no two backups share a name. */
  lemma NamesAreDistinct(a: Stamp, b: Stamp)
    requires a.Valid() && b.Valid()
    ensures a == b <==> Stem(a) == Stem(b)
    ensures SqlName(a) == SqlName(b) || GzName(a) == GzName(b) || ShaName(a) == ShaName(b) ==> a == b
    ensures SqlName(a) != GzName(b) && SqlName(a) != ShaName(b) && GzName(a) != ShaName(b)
  {
    if a != b {
      NameOrderIsTimeOrder(a, b, "");
      NameOrderIsTimeOrder(b, a, "");
      assert Stem(a) + "" == Stem(a) && Stem(b) + "" == Stem(b);
      BeforeIrreflexive(Stem(a));
    }
    if SqlName(a) == SqlName(b) || GzName(a) == GzName(b) || ShaName(a) == ShaName(b) {
      assert SqlName(a)[..30] == Stem(a) && GzName(a)[..30] == Stem(a) && ShaName(a)[..30] == Stem(a);
      assert SqlName(b)[..30] == Stem(b) && GzName(b)[..30] == Stem(b) && ShaName(b)[..30] == Stem(b);
    }
    assert GzName(a)[36] == 'z' && ShaName(b)[36] == '6';
  }

  /** Only the compressed file is seen by the retention listing, and its stem can be cut back out. */
  lemma OnlyGzIsListed(s: Stamp)
    ensures EndsWith(GzName(s), GZ) && StemOf(GzName(s)) == Stem(s)
    ensures !EndsWith(SqlName(s), GZ) && !EndsWith(ShaName(s), GZ)
  {
    assert GzName(s)[30..] == GZ;
    assert SqlName(s)[33] == 'l' && SqlName(s)[27..][6] == SqlName(s)[33];
    assert ShaName(s)[36] == '6' && ShaName(s)[30..][6] == ShaName(s)[36];
  }

  // ---------- sorted listings ----------

  predicate Ascending(names: seq<string>) {
    forall i, j | 0 <= i < j < |names| :: Before(names[i], names[j])
  }

  function Elements(names: seq<string>): set<string> { set f <- names }

  /** The names that sort after `f`. */
  function Later(names: set<string>, f: string): set<string> {
    set g | g in names && Before(f, g)
  }

  lemma {:induction false} AscendingSize(names: seq<string>)
    requires Ascending(names)
    ensures |Elements(names)| == |names|
  {
    if names != [] {
      var rest := names[1..];
      AscendingSize(rest);
      assert Elements(names) == {names[0]} + Elements(rest);
      if names[0] in rest { BeforeIrreflexive(names[0]); }
    }
  }

  /** In a sorted listing, the names after position `i` are exactly the later ones. */
  lemma RankInListing(names: seq<string>, i: nat)
    requires Ascending(names) && i < |names|
    ensures |Later(Elements(names), names[i])| == |names| - 1 - i
  {
    forall g | g in names && Before(names[i], g) ensures g in names[i + 1..] {
      var k :| 0 <= k < |names| && names[k] == g;
      if k <= i {
        BeforeIrreflexive(g);
        if k < i { BeforeTransitive(names[i], g, names[i]); BeforeIrreflexive(names[i]); }
      }
      assert names[i + 1..][k - i - 1] == g;
    }
    assert Later(Elements(names), names[i]) == Elements(names[i + 1..]);
    AscendingSize(names[i + 1..]);
  }
}
