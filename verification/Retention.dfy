/** Which file names the retention policy removes, and what that leaves. */
module Retention {
  import opened Text
  import opened BackupNames

  /** The names `_enforce_retention` lists. */
  function Listed(files: set<string>): set<string> {
    set f | f in files && EndsWith(f, GZ)
  }

  /** A listed name is expired when at least `retention` listed names sort after it. */
  function Expired(files: set<string>, retention: int): set<string> {
    if retention <= 0 then {}
    else set f | f in Listed(files) && |Later(Listed(files), f)| >= retention
  }

  /** The files removed together with an expired name. */
  function Companions(gz: string): set<string>
    requires EndsWith(gz, GZ)
  {
    {gz, StemOf(gz) + SQL, StemOf(gz) + SHA}
  }

  predicate IsDoomed(files: set<string>, retention: int, f: string) {
    exists gz :: gz in Expired(files, retention) && f in Companions(gz)
  }

  /** The files left by the retention policy. */
  function Remaining(files: set<string>, retention: int): (r: set<string>)
    ensures r <= files
  {
    set f | f in files && !IsDoomed(files, retention, f)
  }

  // ---------- a directory of backups ----------

  predicate InOrder(stamps: seq<Stamp>) {
    (forall i | 0 <= i < |stamps| :: stamps[i].Valid()) &&
    forall i, j | 0 <= i < j < |stamps| :: Earlier(stamps[i], stamps[j])
  }

  function FilesOf(s: Stamp): set<string> { {SqlName(s), GzName(s), ShaName(s)} }

  predicate BelongsAt(stamps: seq<Stamp>, i: int, f: string) {
    0 <= i < |stamps| && f in FilesOf(stamps[i])
  }

  /** `files` are the triples of these stamps and nothing else. */
  ghost predicate FilesOfAll(files: set<string>, stamps: seq<Stamp>) {
    forall f :: f in files <==> exists i :: BelongsAt(stamps, i, f)
  }

  /** The newest `retention` of a list in time order; all of it when retention is off. */
  function Newest<T>(retention: int, xs: seq<T>): seq<T> {
    if retention <= 0 || |xs| <= retention then xs else xs[|xs| - retention..]
  }

  function Listing(stamps: seq<Stamp>): (names: seq<string>)
    ensures |names| == |stamps| && forall i | 0 <= i < |stamps| :: names[i] == GzName(stamps[i])
  {
    seq(|stamps|, i requires 0 <= i < |stamps| => GzName(stamps[i]))
  }

  lemma ListingAscends(stamps: seq<Stamp>)
    requires InOrder(stamps)
    ensures Ascending(Listing(stamps))
  {
    forall i, j | 0 <= i < j < |stamps| ensures Before(Listing(stamps)[i], Listing(stamps)[j]) {
      NameOrderIsTimeOrder(stamps[i], stamps[j], GZ);
    }
  }

  lemma ListedAre(files: set<string>, stamps: seq<Stamp>)
    requires FilesOfAll(files, stamps)
    ensures Listed(files) == Elements(Listing(stamps))
  {
    var names := Listing(stamps);
    forall f | f in Listed(files) ensures f in names {
      var i :| BelongsAt(stamps, i, f);
      OnlyGzIsListed(stamps[i]);
      assert f == names[i];
    }
    forall f | f in names ensures f in Listed(files) {
      var i :| 0 <= i < |names| && names[i] == f;
      OnlyGzIsListed(stamps[i]);
      assert BelongsAt(stamps, i, f);
    }
  }

  /** A backup is expired exactly when it is not among the newest. */
  lemma ExpiredByPosition(files: set<string>, stamps: seq<Stamp>, retention: int, i: nat)
    requires InOrder(stamps) && FilesOfAll(files, stamps) && i < |stamps|
    ensures GzName(stamps[i]) in Expired(files, retention) <==> retention > 0 && i < |stamps| - retention
  {
    var names := Listing(stamps);
    ListedAre(files, stamps);
    ListingAscends(stamps);
    RankInListing(names, i);
    assert names[i] in Elements(names);
  }

  lemma CompanionsAreFiles(s: Stamp)
    ensures EndsWith(GzName(s), GZ) && Companions(GzName(s)) == FilesOf(s)
  {
    OnlyGzIsListed(s);
  }

  lemma FilesAreDisjoint(a: Stamp, b: Stamp, f: string)
    requires a.Valid() && b.Valid() && f in FilesOf(a) && f in FilesOf(b)
    ensures a == b
  {
    NamesAreDistinct(a, b);
    NamesAreDistinct(b, a);
  }

  lemma ListedPosition(files: set<string>, stamps: seq<Stamp>, gz: string) returns (j: nat)
    requires FilesOfAll(files, stamps) && gz in Listed(files)
    ensures j < |stamps| && gz == GzName(stamps[j])
  {
    ListedAre(files, stamps);
    j :| 0 <= j < |stamps| && Listing(stamps)[j] == gz;
  }

  lemma DoomedHasPosition(files: set<string>, stamps: seq<Stamp>, retention: int, i: nat, f: string)
    requires InOrder(stamps) && FilesOfAll(files, stamps) && BelongsAt(stamps, i, f)
    requires IsDoomed(files, retention, f)
    ensures retention > 0 && i < |stamps| - retention
  {
    hide FilesOf, Companions, FilesOfAll;
    var gz :| gz in Expired(files, retention) && f in Companions(gz);
    var j := ListedPosition(files, stamps, gz);
    CompanionsAreFiles(stamps[j]);
    FilesAreDisjoint(stamps[i], stamps[j], f);
    ExpiredByPosition(files, stamps, retention, j);
  }

  /** A file goes with its own backup and with no other. */
  lemma DoomedByPosition(files: set<string>, stamps: seq<Stamp>, retention: int, i: nat, f: string)
    requires InOrder(stamps) && FilesOfAll(files, stamps) && BelongsAt(stamps, i, f)
    ensures IsDoomed(files, retention, f) <==> retention > 0 && i < |stamps| - retention
  {
    hide FilesOf, Companions, FilesOfAll, Expired;
    if IsDoomed(files, retention, f) {
      DoomedHasPosition(files, stamps, retention, i, f);
    } else {
      ExpiredByPosition(files, stamps, retention, i);
      CompanionsAreFiles(stamps[i]);
    }
  }

  /** The policy leaves exactly the files of the newest backups. */
  lemma NewestRemain(files: set<string>, stamps: seq<Stamp>, retention: int)
    requires InOrder(stamps) && FilesOfAll(files, stamps)
    ensures FilesOfAll(Remaining(files, retention), Newest(retention, stamps))
  {
    hide FilesOf, IsDoomed;
    var rest := Newest(retention, stamps);
    var shift := |stamps| - |rest|;
    forall f
      ensures f in Remaining(files, retention) <==> exists i :: BelongsAt(rest, i, f)
    {
      if f in Remaining(files, retention) {
        var j :| BelongsAt(stamps, j, f);
        DoomedByPosition(files, stamps, retention, j, f);
        assert BelongsAt(rest, j - shift, f);
      }
      if i :| BelongsAt(rest, i, f) {
        assert BelongsAt(stamps, i + shift, f);
        DoomedByPosition(files, stamps, retention, i + shift, f);
      }
    }
  }

  /** Adding the triple of a later backup. */
  lemma FilesWithNew(files: set<string>, stamps: seq<Stamp>, s: Stamp)
    requires InOrder(stamps + [s]) && FilesOfAll(files, stamps)
    ensures FilesOfAll(files + FilesOf(s), stamps + [s]) && files !! FilesOf(s)
  {
    var all := stamps + [s];
    assert all[|stamps|] == s;
    forall f
      ensures f in files + FilesOf(s) <==> exists i :: BelongsAt(all, i, f)
    {
      if f in files {
        var i :| BelongsAt(stamps, i, f);
        assert BelongsAt(all, i, f);
      }
      if f in FilesOf(s) { assert BelongsAt(all, |stamps|, f); }
      if i :| BelongsAt(all, i, f) {
        if i < |stamps| { assert BelongsAt(stamps, i, f); }
      }
    }
    forall f | f in files ensures f !in FilesOf(s) {
      var i :| BelongsAt(stamps, i, f);
      assert all[i] == stamps[i];
      if f in FilesOf(s) { FilesAreDisjoint(stamps[i], s, f); }
    }
  }

  /** With no assumption on the clock: a listed file survives if and only if fewer than
      `retention` listed names sort after it. */
  lemma ListedSurvivesIff(files: set<string>, retention: int, f: string)
    requires f in Listed(files)
    ensures f in Remaining(files, retention) <==> retention <= 0 || |Later(Listed(files), f)| < retention
  {
    assert f in Companions(f);
    if gz :| gz in Expired(files, retention) && f in Companions(gz) {
      assert f[|f| - 7..][4] == '.' && f[|f| - 7..][6] == 'z';
      assert (StemOf(gz) + SQL)[|StemOf(gz)| + 3] == 'l' && (StemOf(gz) + SHA)[|StemOf(gz)| + 6] == '6';
    }
  }

  // ---------- backups written in any order ----------

  predicate AllValid(stamps: set<Stamp>) { forall s <- stamps :: s.Valid() }

  /** The stamps later than `s`. */
  function Newer(stamps: set<Stamp>, s: Stamp): set<Stamp> {
    set t | t in stamps && Earlier(s, t)
  }

  /** At least `retention` of the stamps are later. */
  predicate Superseded(stamps: set<Stamp>, retention: int, s: Stamp) {
    retention > 0 && |Newer(stamps, s)| >= retention
  }

  /** The stamps whose compressed file is there. */
  function Present(stamps: set<Stamp>, files: set<string>): (p: set<Stamp>)
    ensures p <= stamps
  {
    set s | s in stamps && GzName(s) in files
  }

  /** Every file belongs to one of the stamps. */
  ghost predicate AllOwned(stamps: set<Stamp>, files: set<string>) {
    forall f | f in files :: exists s :: s in stamps && f in FilesOf(s)
  }

  function GzNames(stamps: set<Stamp>): set<string> { set s <- stamps :: GzName(s) }

  lemma EarlierIsOrder(a: Stamp, b: Stamp, c: Stamp)
    ensures !Earlier(a, a) && (a != b ==> Earlier(a, b) || Earlier(b, a))
    ensures Earlier(a, b) && Earlier(b, c) ==> Earlier(a, c)
  {
  }

  lemma FewerStamps<T>(a: set<T>, b: set<T>)
    requires a <= b
    ensures |a| <= |b|
  {
    assert b == a + (b - a);
  }

  lemma {:induction false} NamesCount(stamps: set<Stamp>)
    requires AllValid(stamps)
    ensures |GzNames(stamps)| == |stamps|
    decreases |stamps|
  {
    hide GzName;
    if stamps != {} {
      var s :| s in stamps;
      var rest := stamps - {s};
      NamesCount(rest);
      forall t | t in rest ensures GzName(t) != GzName(s) { NamesAreDistinct(s, t); }
      assert GzNames(stamps) == GzNames(rest) + {GzName(s)};
    }
  }

  lemma GzOwner(stamps: set<Stamp>, files: set<string>, gz: string) returns (s: Stamp)
    requires AllOwned(stamps, files) && gz in Listed(files)
    ensures s in stamps && gz == GzName(s)
  {
    s :| s in stamps && gz in FilesOf(s);
    OnlyGzIsListed(s);
  }

  /** What pruning lists are the names of the backups that are there. */
  lemma ListedArePresent(stamps: set<Stamp>, files: set<string>)
    requires AllOwned(stamps, files)
    ensures Listed(files) == GzNames(Present(stamps, files))
  {
    hide GzName, EndsWith, AllOwned;
    forall gz | gz in Listed(files) ensures gz in GzNames(Present(stamps, files)) {
      var s := GzOwner(stamps, files, gz);
    }
    forall s | s in Present(stamps, files) ensures GzName(s) in Listed(files) { OnlyGzIsListed(s); }
  }

  /** The rank by name is the rank by time. */
  lemma RankByTime(stamps: set<Stamp>, files: set<string>, s: Stamp)
    requires AllValid(stamps) && AllOwned(stamps, files) && s.Valid()
    ensures |Later(Listed(files), GzName(s))| == |Newer(Present(stamps, files), s)|
  {
    hide GzName, EndsWith, AllOwned, Earlier, Before;
    var here := Present(stamps, files);
    ListedArePresent(stamps, files);
    forall t | t in here ensures Before(GzName(s), GzName(t)) <==> Earlier(s, t) { GzOrder(s, t); }
    assert Later(GzNames(here), GzName(s)) == GzNames(Newer(here, s));
    NamesCount(Newer(here, s));
  }

  lemma GzOrder(a: Stamp, b: Stamp)
    requires a.Valid() && b.Valid()
    ensures Before(GzName(a), GzName(b)) <==> Earlier(a, b)
  {
    hide Before, Stem, Earlier;
    NameOrderIsTimeOrder(a, b, GZ);
  }

  /** Pruning takes all files of a listed backup that is superseded among the listed ones, and no other. */
  lemma PrunedIff(stamps: set<Stamp>, files: set<string>, retention: int, s: Stamp, f: string)
    requires AllValid(stamps) && AllOwned(stamps, files) && s in stamps && f in FilesOf(s) && f in files
    ensures f in Remaining(files, retention) <==>
            !(GzName(s) in files && Superseded(Present(stamps, files), retention, s))
  {
    hide GzName, EndsWith, AllOwned, Earlier, Before, FilesOf, Companions;
    CompanionsAreFiles(s);
    RankByTime(stamps, files, s);
    if gz :| gz in Expired(files, retention) && f in Companions(gz) {
      var t := GzOwner(stamps, files, gz);
      CompanionsAreFiles(t);
      FilesAreDisjoint(s, t, f);
    }
  }

  /** A backup superseded among all is superseded among those left, if only superseded ones are missing. */
  lemma {:induction false} SupersededAmongPresent(all: set<Stamp>, here: set<Stamp>, retention: int, s: Stamp)
    requires here <= all && Superseded(all, retention, s)
    requires forall t | t in all && t !in here :: Superseded(all, retention, t)
    ensures Superseded(here, retention, s)
    decreases |Newer(all, s)|
  {
    if Newer(all, s) <= here {
      assert Newer(here, s) == Newer(all, s);
    } else {
      var t :| t in Newer(all, s) && t !in here;
      forall u ensures Earlier(t, u) ==> Earlier(s, u) { EarlierIsOrder(s, t, u); }
      EarlierIsOrder(t, t, t);
      assert Newer(all, t) <= Newer(all, s) - {t};
      FewerStamps(Newer(all, t), Newer(all, s) - {t});
      SupersededAmongPresent(all, here, retention, t);
      FewerStamps(Newer(here, t), Newer(here, s));
    }
  }

  /** A backup superseded among some stamps is superseded among more. */
  lemma SupersededAmongMore(some: set<Stamp>, more: set<Stamp>, retention: int, s: Stamp)
    requires some <= more && Superseded(some, retention, s)
    ensures Superseded(more, retention, s)
  {
    FewerStamps(Newer(some, s), Newer(more, s));
  }

  function Unsuperseded(stamps: set<Stamp>, retention: int): set<Stamp> {
    set s | s in stamps && !Superseded(stamps, retention, s)
  }

  lemma {:induction false} Oldest(stamps: set<Stamp>) returns (m: Stamp)
    requires stamps != {}
    ensures m in stamps && forall s | s in stamps && s != m :: Earlier(m, s)
    decreases |stamps|
  {
    var first :| first in stamps;
    var rest := stamps - {first};
    m := first;
    if rest != {} {
      var k := Oldest(rest);
      EarlierIsOrder(first, k, first);
      if Earlier(k, first) {
        m := k;
      } else {
        forall s | s in rest ensures Earlier(first, s) { EarlierIsOrder(first, k, s); }
      }
    }
    forall s | s in stamps && s != m ensures Earlier(m, s) { assert s != first ==> s in rest; }
  }

  /** Not being superseded is being among the newest `retention`. */
  lemma {:induction false} UnsupersededCount(stamps: set<Stamp>, retention: int)
    requires retention > 0
    ensures |Unsuperseded(stamps, retention)| == if |stamps| < retention then |stamps| else retention
    decreases |stamps|
  {
    hide Earlier;
    if stamps == {} {
      assert Unsuperseded(stamps, retention) == {};
    } else {
      var m := Oldest(stamps);
      var rest := stamps - {m};
      UnsupersededCount(rest, retention);
      EarlierIsOrder(m, m, m);
      assert Newer(stamps, m) == rest;
      forall s | s in rest ensures Newer(stamps, s) == Newer(rest, s) {
        EarlierIsOrder(m, s, m);
      }
      var kept := Unsuperseded(rest, retention);
      if |rest| >= retention {
        assert Unsuperseded(stamps, retention) == kept;
      } else {
        assert Unsuperseded(stamps, retention) == kept + {m};
      }
    }
  }
}
