/**
 Secret redaction: registered secrets are replaced, longest first, by a fixed mark.

 A secret that can line up with the mark is not safe; every other secret is,
 whatever else is registered. `NeverLeaksIff` says exactly that.
 */
module Redaction {
  import opened Text

  const MARK: string := "[REDACTED]"

  // ---------- str.replace ----------

  predicate StartsWith(text: string, part: string) {
    |part| <= |text| && text[..|part|] == part
  }

  /** `text.replace(part, MARK)`: leftmost occurrences first, never overlapping. */
  function Replace(text: string, part: string): string
    requires part != ""
    decreases |text|
  {
    if |text| < |part| then text
    else if StartsWith(text, part) then MARK + Replace(text[|part|..], part)
    else [text[0]] + Replace(text[1..], part)
  }

  /** The pieces of `text` left between the replaced occurrences. */
  function Pieces(text: string, part: string): (ps: seq<string>)
    requires part != ""
    ensures ps != []
    decreases |text|
  {
    if |text| < |part| then [text]
    else if StartsWith(text, part) then [""] + Pieces(text[|part|..], part)
    else
      var rest := Pieces(text[1..], part);
      [[text[0]] + rest[0]] + rest[1..]
  }

  function Join(pieces: seq<string>, glue: string): string
    requires pieces != []
  {
    if |pieces| == 1 then pieces[0] else pieces[0] + glue + Join(pieces[1..], glue)
  }

  lemma JoinHead(c: char, pieces: seq<string>, glue: string)
    requires pieces != []
    ensures Join([[c] + pieces[0]] + pieces[1..], glue) == [c] + Join(pieces, glue)
  {
    assert ([[c] + pieces[0]] + pieces[1..])[1..] == pieces[1..];
    if |pieces| > 1 {
      assert [c] + pieces[0] + glue + Join(pieces[1..], glue) == [c] + (pieces[0] + glue + Join(pieces[1..], glue));
    }
  }

  lemma {:induction false} JoinPieces(text: string, part: string)
    requires part != ""
    ensures Join(Pieces(text, part), part) == text
    ensures Join(Pieces(text, part), MARK) == Replace(text, part)
    decreases |text|
  {
    if |text| < |part| {
    } else if StartsWith(text, part) {
      JoinPieces(text[|part|..], part);
      JoinEmptyHead(Pieces(text[|part|..], part), part);
      JoinEmptyHead(Pieces(text[|part|..], part), MARK);
    } else {
      JoinPieces(text[1..], part);
      JoinHead(text[0], Pieces(text[1..], part), part);
      JoinHead(text[0], Pieces(text[1..], part), MARK);
    }
  }

  lemma JoinEmptyHead(pieces: seq<string>, glue: string)
    requires pieces != []
    ensures Join([""] + pieces, glue) == glue + Join(pieces, glue)
  {
    assert ([""] + pieces)[1..] == pieces;
    assert "" + glue == glue;
  }

  lemma {:induction false} PiecesAreFree(text: string, part: string)
    requires part != ""
    ensures forall i | 0 <= i < |Pieces(text, part)| :: !Occurs(part, Pieces(text, part)[i])
    decreases |text|
  {
    if |text| < |part| {
    } else if StartsWith(text, part) {
      PiecesAreFree(text[|part|..], part);
    } else {
      PiecesAreFree(text[1..], part);
      var first := Pieces(text[1..], part)[0];
      FirstPieceIsPrefix(text[1..], part);
      OccursAfterHead(text[0], first, text[1..], part);
    }
  }

  /** An occurrence past a prefix is an occurrence in the rest. */
  lemma OccursPastPrefix(part: string, prefix: string, rest: string, i: int)
    requires OccursAt(part, prefix + rest, i) && i >= |prefix|
    ensures OccursAt(part, rest, i - |prefix|)
  {
    assert (prefix + rest)[i..i + |part|] == rest[i - |prefix|..i - |prefix| + |part|];
  }

  /** An occurrence in `c + first` starts at `c`, hence starts `c + rest` too, or lies in `first`. */
  lemma OccursAfterHead(c: char, first: string, rest: string, part: string)
    requires part != "" && StartsWith(rest, first)
    ensures Occurs(part, [c] + first) ==> StartsWith([c] + rest, part) || Occurs(part, first)
  {
    if i :| OccursAt(part, [c] + first, i) {
      if i == 0 {
        assert ([c] + first)[..|part|] == ([c] + rest)[..|part|];
      } else {
        OccursPastPrefix(part, [c], first, i);
      }
    }
  }

  /** Replacement only swaps the secret for the mark: everything between the occurrences
      is kept, in order, and gluing the pieces back with the secret gives the text again. */
  lemma ReplaceIsSplitAndJoin(text: string, part: string)
    requires part != ""
    ensures Join(Pieces(text, part), part) == text
    ensures Join(Pieces(text, part), MARK) == Replace(text, part)
    ensures forall i | 0 <= i < |Pieces(text, part)| :: !Occurs(part, Pieces(text, part)[i])
  {
    JoinPieces(text, part);
    PiecesAreFree(text, part);
  }

  lemma {:induction false} FirstPieceIsPrefix(text: string, part: string)
    requires part != ""
    ensures StartsWith(text, Pieces(text, part)[0])
    decreases |text|
  {
    if |text| >= |part| && !StartsWith(text, part) { FirstPieceIsPrefix(text[1..], part); }
  }

  // ---------- lining up with the mark ----------

  /** `s` shifted by `d` agrees with the mark wherever the two overlap, and they do overlap. */
  predicate AlignsAt(s: string, d: int) {
    -|MARK| < d < |s| &&
    forall i | 0 <= i < |s| && 0 <= i - d < |MARK| :: s[i] == MARK[i - d]
  }

  /** `s` is part of the mark, contains it, or shares an end with it. */
  ghost predicate TouchesMark(s: string) {
    exists d :: AlignsAt(s, d)
  }

  /** A secret that lines up with the mark has a character of the mark. */
  lemma TouchingSharesCharacter(s: string)
    requires s != "" && TouchesMark(s)
    ensures exists c :: c in s && c in MARK
  {
    var d :| AlignsAt(s, d);
    var i := if d >= 0 then d else 0;
    assert s[i] == MARK[i - d] && s[i] in s;
  }

  /** A prefix of the output is a prefix of the text, or runs into the first mark. */
  lemma {:induction false} OutputPrefix(text: string, part: string, w: string) returns (j: nat)
    requires part != "" && StartsWith(Replace(text, part), w)
    ensures StartsWith(text, w) || (j < |w| && AlignsAt(w, j))
    decreases |text|
  {
    j := 0;
    if w == "" || |text| < |part| {
    } else if StartsWith(text, part) {
      assert AlignsAt(w, 0);
    } else {
      var rest := Replace(text[1..], part);
      assert ([text[0]] + rest)[..|w|][1..] == rest[..|w| - 1];
      var k := OutputPrefix(text[1..], part, w[1..]);
      if StartsWith(text[1..], w[1..]) {
        assert text[..|w|] == [text[0]] + text[1..][..|w| - 1] == w;
      } else {
        j := k + 1;
        forall i | 0 <= i < |w| && 0 <= i - j < |MARK| ensures w[i] == MARK[i - j] {
          assert w[i] == w[1..][i - 1];
        }
      }
    }
  }

  lemma ReplaceHit(part: string, rest: string)
    requires part != ""
    ensures Replace(part + rest, part) == MARK + Replace(rest, part)
  {
    assert (part + rest)[..|part|] == part && (part + rest)[|part|..] == rest;
  }

  lemma ReplaceSkip(c: char, rest: string, part: string)
    requires part != "" && !StartsWith([c] + rest, part)
    ensures Replace([c] + rest, part) == [c] + Replace(rest, part)
  {
    assert ([c] + rest)[1..] == rest;
  }

  /** Whatever occurs after a replacement touches a mark or occurred, unreplaced, before. */
  lemma {:induction false} OccurrenceTraced(text: string, part: string, s: string, i: int)
    requires part != "" && s != "" && OccursAt(s, Replace(text, part), i)
    ensures TouchesMark(s) || (s != part && Occurs(s, text))
    decreases |text|
  {
    if |text| < |part| {
    } else if StartsWith(text, part) {
      var rest := text[|part|..];
      assert text == part + rest;
      ReplaceHit(part, rest);
      if i < |MARK| {
        InsideMark(s, Replace(rest, part), i);
      } else {
        OccursPastPrefix(s, MARK, Replace(rest, part), i);
        OccurrenceTraced(rest, part, s, i - |MARK|);
        OccursInTail(s, text, |part|);
      }
    } else if i == 0 {
      var j := OutputPrefix(text, part, s);
      if StartsWith(text, s) { assert OccursAt(s, text, 0); }
    } else {
      var rest := text[1..];
      assert text == [text[0]] + rest;
      ReplaceSkip(text[0], rest, part);
      OccursPastPrefix(s, [text[0]], Replace(rest, part), i);
      OccurrenceTraced(rest, part, s, i - 1);
      OccursInTail(s, text, 1);
    }
  }

  lemma InsideMark(s: string, rest: string, i: int)
    requires s != "" && i < |MARK| && OccursAt(s, MARK + rest, i)
    ensures TouchesMark(s)
  {
    forall k | 0 <= k < |s| && 0 <= k + i < |MARK| ensures s[k] == MARK[k + i] {
      assert s[k] == (MARK + rest)[i..i + |s|][k];
    }
    assert AlignsAt(s, -i);
  }

  /** Replacing any secret neither leaves nor creates an occurrence of a clear one. */
  lemma ReplaceKeepsOut(text: string, part: string, s: string)
    requires part != "" && s != "" && !TouchesMark(s)
    requires s == part || !Occurs(s, text)
    ensures !Occurs(s, Replace(text, part))
  {
    if i :| OccursAt(s, Replace(text, part), i) { OccurrenceTraced(text, part, s, i); }
  }

  lemma OccursInTail(s: string, text: string, k: nat)
    requires k <= |text|
    ensures Occurs(s, text[k..]) ==> Occurs(s, text)
  {
    if i :| OccursAt(s, text[k..], i) {
      assert text[k..][i..i + |s|] == text[k + i..k + i + |s|];
      assert OccursAt(s, text, k + i);
    }
  }

  // ---------- the registry and the secret stage ----------

  /** What `register_secret` makes of the list of known secrets. */
  function Register(known: seq<string>, secret: string): (r: seq<string>)
    ensures Registered(known) ==> Registered(r)
    ensures |secret| > 3 ==> secret in r
  {
    if |secret| > 3 && secret !in known then known + [secret] else known
  }

  /** Every list the registry can hold: no repeats, nothing of three characters or fewer. */
  predicate Registered(known: seq<string>) {
    (forall s <- known :: |s| > 3) &&
    (forall i, j | 0 <= i < j < |known| :: known[i] != known[j])
  }

  function InsertByLength(s: string, sorted: seq<string>): (r: seq<string>)
    ensures multiset(r) == multiset{s} + multiset(sorted)
  {
    if sorted == [] then [s]
    else if |sorted[0]| <= |s| then [s] + sorted
    else
      assert sorted == [sorted[0]] + sorted[1..];
      [sorted[0]] + InsertByLength(s, sorted[1..])
  }

  /** `sorted(known, key=len, reverse=True)`: longest first, ties in registration order. */
  function LongestFirst(known: seq<string>): (r: seq<string>)
    ensures multiset(r) == multiset(known)
  {
    if known == [] then []
    else
      assert known == [known[0]] + known[1..];
      InsertByLength(known[0], LongestFirst(known[1..]))
  }

  predicate NonEmpty(secrets: seq<string>) {
    forall i | 0 <= i < |secrets| :: secrets[i] != ""
  }

  function ReplaceAll(text: string, secrets: seq<string>): string
    requires NonEmpty(secrets)
    decreases |secrets|
  {
    if secrets == [] then text else ReplaceAll(Replace(text, secrets[0]), secrets[1..])
  }

  /** The secret stage of `redact`. */
  function HideSecrets(text: string, known: seq<string>): string
    requires Registered(known)
  {
    SameMembers(LongestFirst(known), known);
    ReplaceAll(text, LongestFirst(known))
  }

  lemma SameMembers(a: seq<string>, b: seq<string>)
    requires multiset(a) == multiset(b)
    ensures forall s :: s in a <==> s in b
  {
    assert forall s :: s in a <==> s in multiset(a);
    assert forall s :: s in b <==> s in multiset(b);
  }

  /** `redact`, with the regular-expression stage as an arbitrary function. */
  function Redact(text: string, known: seq<string>, patterns: string -> string): string
    requires Registered(known)
  {
    if text == "" then text else HideSecrets(patterns(text), known)
  }

  lemma {:induction false} ReplaceAllKeepsOut(text: string, secrets: seq<string>, s: string)
    requires NonEmpty(secrets)
    requires s != "" && !TouchesMark(s)
    requires s in secrets || !Occurs(s, text)
    ensures !Occurs(s, ReplaceAll(text, secrets))
    decreases |secrets|
  {
    if secrets != [] {
      var next := Replace(text, secrets[0]);
      if s == secrets[0] || !Occurs(s, text) { ReplaceKeepsOut(text, secrets[0], s); }
      ReplaceAllKeepsOut(next, secrets[1..], s);
    }
  }

  lemma ClearSecretIsHidden(text: string, known: seq<string>, s: string)
    requires Registered(known) && s in known && !TouchesMark(s)
    ensures !Occurs(s, HideSecrets(text, known))
  {
    SameMembers(LongestFirst(known), known);
    ReplaceAllKeepsOut(text, LongestFirst(known), s);
  }

  /** No registered secret survives when none of them can line up with the mark. */
  lemma RedactedTextHasNoSecret(text: string, known: seq<string>, patterns: string -> string)
    requires Registered(known)
    requires forall s <- known :: !TouchesMark(s)
    ensures forall s <- known :: !Occurs(s, Redact(text, known, patterns))
  {
    forall s | s in known ensures !Occurs(s, Redact(text, known, patterns)) {
      if text != "" { ClearSecretIsHidden(patterns(text), known, s); }
    }
  }

  lemma {:induction false} ReplaceWithoutOccurrence(text: string, part: string)
    requires part != "" && !Occurs(part, text)
    ensures Replace(text, part) == text
    decreases |text|
  {
    if |text| >= |part| {
      assert StartsWith(text, part) ==> OccursAt(part, text, 0);
      OccursInTail(part, text, 1);
      ReplaceWithoutOccurrence(text[1..], part);
    }
  }

  lemma {:induction false} ReplaceAllWithoutOccurrence(text: string, secrets: seq<string>)
    requires NonEmpty(secrets)
    requires forall i | 0 <= i < |secrets| :: !Occurs(secrets[i], text)
    ensures ReplaceAll(text, secrets) == text
    decreases |secrets|
  {
    if secrets != [] {
      ReplaceWithoutOccurrence(text, secrets[0]);
      ReplaceAllWithoutOccurrence(text, secrets[1..]);
    }
  }

  /** Redacting a redacted text again changes nothing. */
  lemma HidingIsIdempotent(text: string, known: seq<string>)
    requires Registered(known)
    requires forall s <- known :: !TouchesMark(s)
    ensures HideSecrets(HideSecrets(text, known), known) == HideSecrets(text, known)
  {
    SameMembers(LongestFirst(known), known);
    var once := HideSecrets(text, known);
    forall s | s in known ensures !Occurs(s, once) { ClearSecretIsHidden(text, known, s); }
    ReplaceAllWithoutOccurrence(once, LongestFirst(known));
  }

  /** The patterns are applied first and to the whole text: where no registered secret is left in what
      they make of it, that is the result, and nothing else of the text matters. */
  lemma PatternsComeFirst(text: string, other: string, known: seq<string>, patterns: string -> string)
    requires Registered(known)
    ensures Redact("", known, patterns) == ""
    ensures text != "" && (forall s <- known :: !Occurs(s, patterns(text))) ==>
              Redact(text, known, patterns) == patterns(text)
    ensures text != "" ==> Redact(text, [], patterns) == patterns(text)
    ensures text != "" && other != "" && patterns(text) == patterns(other) ==>
              Redact(text, known, patterns) == Redact(other, known, patterns)
  {
    SameMembers(LongestFirst(known), known);
    if text != "" && forall s <- known :: !Occurs(s, patterns(text)) {
      ReplaceAllWithoutOccurrence(patterns(text), LongestFirst(known));
    }
    ReplaceAllWithoutOccurrence(patterns(text), LongestFirst([]));
  }

  // ---------- what the functions do, said of occurrences ----------

  /** The first occurrence is replaced and the rest of the text is treated the same way. */
  lemma {:induction false} LeftmostIsReplaced(text: string, part: string, i: nat)
    requires part != "" && OccursAt(part, text, i) && forall j | 0 <= j < i :: !OccursAt(part, text, j)
    ensures Replace(text, part) == text[..i] + "[REDACTED]" + Replace(text[i + |part|..], part)
    decreases i
  {
    hide Replace;
    if i > 0 {
      var rest := text[1..];
      assert text == [text[0]] + rest;
      assert !OccursAt(part, text, 0);
      ReplaceSkip(text[0], rest, part);
      forall j ensures OccursAt(part, rest, j) <==> j >= 0 && OccursAt(part, text, j + 1) {
        OccursShifted(part, text[0], rest, j);
      }
      LeftmostIsReplaced(rest, part, i - 1);
      assert rest[i - 1 + |part|..] == text[i + |part|..] && [text[0]] + rest[..i - 1] == text[..i];
    } else {
      assert text == part + text[|part|..];
      ReplaceHit(part, text[|part|..]);
      assert text[..0] == "";
    }
  }

  lemma OccursShifted(part: string, c: char, rest: string, j: int)
    ensures OccursAt(part, rest, j) <==> j >= 0 && OccursAt(part, [c] + rest, j + 1)
  {
    if j >= 0 && j + |part| <= |rest| { assert ([c] + rest)[j + 1..j + 1 + |part|] == rest[j..j + |part|]; }
  }

  /** The registry grows at its end by a secret of more than three characters it does not hold yet, and
      not otherwise. */
  lemma RegisteringMeans(known: seq<string>, secret: string)
    ensures Register(known, secret) == if |secret| > 3 && secret !in known then known + [secret] else known
  {
  }

  // ---------- why longest first ----------

  function OfLength(secrets: seq<string>, n: nat): seq<string> {
    if secrets == [] then []
    else (if |secrets[0]| == n then [secrets[0]] else []) + OfLength(secrets[1..], n)
  }

  predicate Descending(secrets: seq<string>) {
    forall i, j | 0 <= i < j < |secrets| :: |secrets[i]| >= |secrets[j]|
  }

  lemma {:induction false} InsertDescends(s: string, sorted: seq<string>)
    requires Descending(sorted)
    ensures Descending(InsertByLength(s, sorted))
    ensures forall i | 0 <= i < |InsertByLength(s, sorted)| ::
              |InsertByLength(s, sorted)[i]| <= |s| || (sorted != [] && |InsertByLength(s, sorted)[i]| <= |sorted[0]|)
  {
    if sorted != [] && |sorted[0]| > |s| { InsertDescends(s, sorted[1..]); }
  }

  lemma OfLengthCons(s: string, rest: seq<string>, n: nat)
    ensures OfLength([s] + rest, n) == if |s| == n then [s] + OfLength(rest, n) else OfLength(rest, n)
  {
    assert ([s] + rest)[1..] == rest;
  }

  lemma {:induction false} InsertIsStable(s: string, sorted: seq<string>, n: nat)
    ensures OfLength(InsertByLength(s, sorted), n) == OfLength([s] + sorted, n)
  {
    OfLengthCons(s, sorted, n);
    if sorted != [] && |sorted[0]| > |s| {
      var rest := sorted[1..];
      hide OfLength;
      InsertIsStable(s, rest, n);
      assert sorted == [sorted[0]] + rest;
      OfLengthCons(s, rest, n);
      OfLengthCons(sorted[0], rest, n);
      OfLengthCons(sorted[0], InsertByLength(s, rest), n);
    }
  }

  /** `LongestFirst` is a stable sort: lengths never increase and ties keep registration order. */
  lemma {:induction false} LongestFirstIsStableSort(known: seq<string>, n: nat)
    ensures Descending(LongestFirst(known)) && OfLength(LongestFirst(known), n) == OfLength(known, n)
  {
    if known != [] {
      LongestFirstIsStableSort(known[1..], n);
      InsertDescends(known[0], LongestFirst(known[1..]));
      InsertIsStable(known[0], LongestFirst(known[1..]), n);
      OfLengthCons(known[0], LongestFirst(known[1..]), n);
      OfLengthCons(known[0], known[1..], n);
      assert known == [known[0]] + known[1..];
    }
  }

  lemma OccursOnlyInLonger(part: string, text: string)
    requires |part| >= |text|
    ensures Occurs(part, text) ==> part == text
  {
    if k :| OccursAt(part, text, k) { assert text[0..|text|] == text; }
  }

  lemma {:induction false} WholeSecret(s: string, secrets: seq<string>)
    requires NonEmpty(secrets) && s in secrets && forall i | 0 <= i < |secrets| :: !TouchesMark(secrets[i])
    requires Descending(secrets)
    ensures ReplaceAll(s, secrets) == MARK
    decreases |secrets|
  {
    var first, rest := secrets[0], secrets[1..];
    if first == s {
      assert s[|s|..] == "" && Replace("", s) == "";
      assert Replace(s, s) == MARK;
      forall i | 0 <= i < |rest| ensures !Occurs(rest[i], MARK) {
        assert rest[i] == secrets[i + 1];
        if k :| OccursAt(rest[i], MARK, k) {
          assert MARK + "" == MARK;
          InsideMark(rest[i], "", k);
        }
      }
      ReplaceAllWithoutOccurrence(MARK, rest);
    } else {
      var at :| 0 <= at < |secrets| && secrets[at] == s;
      OccursOnlyInLonger(first, s);
      ReplaceWithoutOccurrence(s, first);
      assert rest[at - 1] == s;
      WholeSecret(s, rest);
    }
  }

  /** A text that is a secret becomes the mark and nothing else, whatever shorter
      secrets it contains: no tail of it is left behind. */
  lemma SecretBecomesMark(s: string, known: seq<string>)
    requires Registered(known) && s in known && forall u <- known :: !TouchesMark(u)
    ensures HideSecrets(s, known) == MARK
  {
    var secrets := LongestFirst(known);
    SameMembers(secrets, known);
    LongestFirstIsStableSort(known, 0);
    forall i | 0 <= i < |secrets| ensures !TouchesMark(secrets[i]) { assert secrets[i] in secrets; }
    WholeSecret(s, secrets);
  }

  // ---------- exactly which secrets are safe ----------

  ghost predicate LeaksFrom(s: string, known: seq<string>, text: string) {
    Registered(known) && s in known && Occurs(s, HideSecrets(text, known))
  }

  ghost predicate NeverLeaks(s: string) {
    forall known, text :: !LeaksFrom(s, known, text)
  }

  function Repeat(c: char, n: nat): (r: string)
    ensures |r| == n && forall i | 0 <= i < n :: r[i] == c
  {
    seq(n, i => c)
  }

  /** The decoy's replacement pastes the mark between `x` and `y`, rebuilding the secret. */
  lemma {:induction false} DecoyReplaced(x: string, c: char, n: nat, y: string)
    requires |x| < n && |y| < n && (x != "" ==> x[|x| - 1] != c)
    ensures Replace(x + Repeat(c, n) + y, Repeat(c, n)) == x + MARK + y
    decreases |x|
  {
    hide Replace, Repeat;
    var t := Repeat(c, n);
    if x == "" {
      assert x + t + y == t + y && "" + MARK + y == MARK + y;
      ReplaceHit(t, y);
      TooShort(y, t);
    } else {
      var rest := x[1..] + t + y;
      assert x + t + y == [x[0]] + rest;
      assert !StartsWith([x[0]] + rest, t) by { assert ([x[0]] + rest)[..n][|x| - 1] == x[|x| - 1]; }
      ReplaceSkip(x[0], rest, t);
      DecoyReplaced(x[1..], c, n, y);
      assert [x[0]] + (x[1..] + MARK + y) == x + MARK + y;
    }
  }

  lemma TooShort(text: string, part: string)
    requires part != "" && |text| < |part|
    ensures Replace(text, part) == text
  {
  }

  /** A secret can occur around a decoy of its own length only by sharing the decoy's character. */
  lemma DecoyHidesNothing(s: string, x: string, y: string, c: char, i: int)
    requires |x| + |y| < |s| && OccursAt(s, x + Repeat(c, |s|) + y, i)
    ensures s[|x|] == c
  {
    var text := x + Repeat(c, |s|) + y;
    assert s[|x|] == text[i..i + |s|][|x|];
    assert text[i + |x|] == Repeat(c, |s|)[i];
  }

  /** A secret that lines up with the mark is cut out of the mark and its surroundings. */
  lemma MarkCompletesSecret(s: string, d: int, x: string, y: string)
    requires AlignsAt(s, d)
    requires x == if d > 0 then s[..d] else ""
    requires y == if d + |MARK| < |s| then s[d + |MARK|..] else ""
    ensures Occurs(s, x + MARK + y)
  {
    var out := x + MARK + y;
    var at := if d > 0 then 0 else -d;
    forall k | 0 <= k < |s| ensures out[at + k] == s[k] {
      if 0 <= k - d < |MARK| { assert s[k] == MARK[k - d]; }
    }
    assert out[at..at + |s|] == s;
    assert OccursAt(s, out, at);
  }

  /** Two known secrets of one length are replaced in the order they were registered. */
  lemma HideTwo(text: string, s: string, t: string)
    requires |s| == |t| > 3 && s != t
    ensures Registered([s, t]) && HideSecrets(text, [s, t]) == Replace(Replace(text, s), t)
  {
    assert [s, t][1..] == [t] && [t][1..] == [];
    assert LongestFirst([]) == [];
    assert LongestFirst([t]) == [t];
    assert LongestFirst([s, t]) == [s, t];
    assert ReplaceAll(Replace(text, s), [t]) == ReplaceAll(Replace(Replace(text, s), t), []);
  }

  lemma DecoyLeaks(s: string, x: string, y: string, c: char)
    requires |s| > 3 && |x| + |y| < |s| && s[|x|] != c && (x != "" ==> x[|x| - 1] != c)
    requires Occurs(s, x + MARK + y)
    ensures LeaksFrom(s, [s, Repeat(c, |s|)], x + Repeat(c, |s|) + y)
  {
    var t := Repeat(c, |s|);
    var text := x + t + y;
    assert s != t;
    HideTwo(text, s, t);
    if i :| OccursAt(s, text, i) { DecoyHidesNothing(s, x, y, c, i); }
    ReplaceWithoutOccurrence(text, s);
    DecoyReplaced(x, c, |s|, y);
  }

  /** A secret that lines up with the mark can be put back by redacting another secret. */
  lemma TouchingSecretLeaks(s: string) returns (known: seq<string>, text: string)
    requires |s| > 3 && TouchesMark(s)
    ensures LeaksFrom(s, known, text)
  {
    var d :| AlignsAt(s, d);
    var x := if d > 0 then s[..d] else "";
    var y := if d + |MARK| < |s| then s[d + |MARK|..] else "";
    var c := if x != "" && x[|x| - 1] == 'a' then 'b' else 'a';
    assert s[|x|] == MARK[|x| - d];
    MarkCompletesSecret(s, d, x, y);
    DecoyLeaks(s, x, y, c);
    known, text := [s, Repeat(c, |s|)], x + Repeat(c, |s|) + y;
  }

  /** A secret stays hidden in every text and beside every other registered secret
      if and only if it cannot line up with the mark. */
  lemma NeverLeaksIff(s: string)
    requires |s| > 3
    ensures NeverLeaks(s) <==> !TouchesMark(s)
  {
    if TouchesMark(s) {
      var known, text := TouchingSecretLeaks(s);
    } else {
      forall known, text ensures !LeaksFrom(s, known, text) {
        if Registered(known) && s in known { ClearSecretIsHidden(text, known, s); }
      }
    }
  }

  /** The module-level list of secrets and the two functions that use it. */
  class Redactor {
    var known: seq<string>

    constructor ()
      ensures known == []
    {
      known := [];
    }

    method RegisterSecret(secret: string)
      requires Registered(known)
      modifies this
      ensures Registered(known) && known == Register(old(known), secret)
    {
      if secret != "" && |secret| > 3 && secret !in known {
        known := known + [secret];
      }
    }

    method RedactText(text: string, patterns: string -> string) returns (r: string)
      requires Registered(known)
      ensures r == Redact(text, known, patterns)
      ensures (forall s <- known :: !TouchesMark(s)) ==> forall s <- known :: !Occurs(s, r)
    {
      if text == "" {
        RedactedTextIfClear(text, patterns);
        return text;
      }
      r := patterns(text);
      var secrets := LongestFirst(known);
      SameMembers(secrets, known);
      for i := 0 to |secrets|
        invariant ReplaceAll(r, secrets[i..]) == HideSecrets(patterns(text), known)
      {
        r := Replace(r, secrets[i]);
        assert secrets[i..][1..] == secrets[i + 1..];
      }
      RedactedTextIfClear(text, patterns);
    }

    lemma RedactedTextIfClear(text: string, patterns: string -> string)
      requires Registered(known)
      ensures (forall s <- known :: !TouchesMark(s))
              ==> forall s <- known :: !Occurs(s, Redact(text, known, patterns))
    {
      if forall s <- known :: !TouchesMark(s) { RedactedTextHasNoSecret(text, known, patterns); }
    }
  }
}
