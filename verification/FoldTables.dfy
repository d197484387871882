/**
  The fold tables: how the generator lays the entries out, and how the engine
  looks a code point up in them.  Characters the generator leaves out are
  answered by a fallback; the lookup is shown to give every code point its
  meaning all the same.
*/
module FoldTables {
  import opened Bits
  import opened Foldgen
  import opened Ordering
  import opened Utf16
  import opened Wrappers

  const BMP := 0x10000
  const LIMIT := 0x110000

  // ---- lookup ----------------------------------------------------------------------

  /** A table row; tables are sorted by code point. */
  datatype Row<T> = Row(cp: nat, value: T)

  ghost predicate Sorted<T>(rows: seq<Row<T>>) {
    forall i, j :: 0 <= i < j < |rows| ==> rows[i].cp < rows[j].cp
  }

  /** The number of leading rows below the code point. */
  function LowerBound<T>(rows: seq<Row<T>>, cp: nat): (k: nat)
    ensures k <= |rows|
    ensures forall i :: 0 <= i < k ==> rows[i].cp < cp
    ensures k < |rows| ==> rows[k].cp >= cp
  {
    if rows == [] || rows[0].cp >= cp then 0 else 1 + LowerBound(rows[1..], cp)
  }

  function Lookup<T>(rows: seq<Row<T>>, cp: nat): Option<T> {
    var k := LowerBound(rows, cp);
    if k < |rows| && rows[k].cp == cp then Some(rows[k].value) else None
  }

  /** The lookup finds exactly the rows of a sorted table. */
  lemma LookupFinds<T>(rows: seq<Row<T>>, cp: nat, value: T)
    requires Sorted(rows)
    ensures Lookup(rows, cp) == Some(value) <==> Row(cp, value) in rows
  {
    var k := LowerBound(rows, cp);
    if Row(cp, value) in rows {
      var j :| 0 <= j < |rows| && rows[j] == Row(cp, value);
      assert j == k;
    }
  }

  datatype Range = Range(first: nat, last: nat)

  predicate InRanges(cp: nat, ranges: seq<Range>) {
    ranges != [] && (ranges[0].first <= cp <= ranges[0].last || InRanges(cp, ranges[1..]))
  }

  datatype Tables = Tables(bmp: seq<nat>, astral: seq<Row<nat>>, han: seq<Range>,
                           decomp: seq<Row<Slice>>, units: seq<Unit>)

  function AstralEntry(t: Tables, cp: nat): nat {
    match Lookup<nat>(t.astral, cp)
    case Some(entry) => entry
    case None => if InRanges(cp, t.han) then Or(KEEP, Shl(HAN, 3)) else KEEP
  }

  function EntryOf(t: Tables, cp: nat): nat
    requires |t.bmp| == BMP
  {
    if cp < BMP then t.bmp[cp] else AstralEntry(t, cp)
  }

  /** The units a handler reads for a code point, empty if there is no row. */
  function DecompOf(t: Tables, cp: nat): seq<Unit> {
    match Lookup(t.decomp, cp)
    case Some(slice) => if InRange(slice, t.units) then At(slice, t.units) else []
    case None => []
  }

  /** The engine learns exactly this: the form is looked up only when the entry says there is one. */
  predicate LooksUp(t: Tables, cp: CodePoint, m: Meaning) {
    |t.bmp| == BMP &&
    Means(EntryOf(t, cp), cp, t.units, m) &&
    (m.form.Some? ==> DecompOf(t, cp) == Encode(m.form.value))
  }

  // ---- ideographs ------------------------------------------------------------------

  const HAN_RANGES := [
    Range(0x3400, 0x4DBF), Range(0x4E00, 0x9FFF), Range(0xF900, 0xFAFF), Range(0x20000, 0x2A6DF),
    Range(0x2A700, 0x2B73F), Range(0x2B740, 0x2B81F), Range(0x2B820, 0x2CEAF), Range(0x2CEB0, 0x2EBEF),
    Range(0x2EBF0, 0x2EE5F), Range(0x2F800, 0x2FA1F), Range(0x30000, 0x3134F), Range(0x31350, 0x323AF)
  ]

  predicate IsCompatibility(cp: nat) {
    0x2F800 <= cp <= 0x2FA1F
  }

  /** The ranges the fallback knows: the astral ones without the compatibility ideographs. */
  function AstralRanges(ranges: seq<Range>): (astral: seq<Range>) {
    if ranges == [] then []
    else if ranges[0].first >= BMP && ranges[0].first != 0x2F800 then [ranges[0]] + AstralRanges(ranges[1..])
    else AstralRanges(ranges[1..])
  }

  /** A range is kept, or holds the compatibility ideographs, or lies below. */
  predicate IsWhole(r: Range) {
    r == Range(0x2F800, 0x2FA1F) || r.last < BMP || (r.first >= BMP && (r.last < 0x2F800 || r.first > 0x2FA1F))
  }

  lemma {:induction false} AstralRangesAre(cp: nat, ranges: seq<Range>)
    requires cp >= BMP && forall k :: 0 <= k < |ranges| ==> IsWhole(ranges[k])
    ensures InRanges(cp, AstralRanges(ranges)) <==> InRanges(cp, ranges) && !IsCompatibility(cp)
  {
    if ranges != [] {
      AstralRangesAre(cp, ranges[1..]);
      assert IsWhole(ranges[0]);
    }
  }

  lemma HanRangesAreWhole()
    ensures forall k :: 0 <= k < |HAN_RANGES| ==> IsWhole(HAN_RANGES[k])
  {
  }

  /** The ideographs the fallback answers for are those the generator may leave out. */
  lemma AstralHan(cp: nat)
    requires cp >= BMP
    ensures InRanges(cp, AstralRanges(HAN_RANGES)) <==> InRanges(cp, HAN_RANGES) && !IsCompatibility(cp)
  {
    HanRangesAreWhole();
    AstralRangesAre(cp, HAN_RANGES);
  }

  predicate IsHan(c: Character) {
    InRanges(c.ch, HAN_RANGES) && c.letter
  }

  /** An ideograph without a simplified form, left to the fallback. */
  predicate IsPlainHan(c: Character) {
    IsHan(c) && !IsCompatibility(c.ch) && !c.simplified
  }

  // ---- Hangul ----------------------------------------------------------------------

  function HangulPayload(cp: nat, nfkc: Text): (payload: nat)
    ensures payload < 128
  {
    if 0xAC00 <= cp <= 0xD7A3 then 0
    else
      var j := if |nfkc| == 1 then nfkc[0] else 0;
      if 0x1100 <= j <= 0x1112 then 1 + (j - 0x1100)
      else if 0x1161 <= j <= 0x1175 then 1 + 32 + (j - 0x1161)
      else if 0x11A8 <= j <= 0x11C2 then 1 + 64 + (j - 0x11A7)
      else 127
  }

  /** Syllables have 0; the payloads of the modern initials, vowels and finals are apart; all else is 127. */
  lemma PayloadIs(cp: nat, j: Scalar, k: nat)
    ensures k < 11172 ==> HangulPayload(0xAC00 + k, [j]) == 0
    ensures !(0xAC00 <= cp <= 0xD7A3) ==>
      (k < 19 && j == 0x1100 + k ==> HangulPayload(cp, [j]) == 1 + k) &&
      (k < 21 && j == 0x1161 + k ==> HangulPayload(cp, [j]) == 33 + k) &&
      (k < 27 && j == 0x11A8 + k ==> HangulPayload(cp, [j]) == 66 + k) &&
      (j < 0x1100 || 0x1112 < j < 0x1161 || 0x1175 < j < 0x11A8 || j > 0x11C2 ==> HangulPayload(cp, [j]) == 127)
  {
  }

  /** The compatibility and half-width jamo. */
  predicate IsCompatibilityJamo(cp: nat) {
    0x3131 <= cp < 0x318F || 0xFFA0 <= cp < 0xFFDD
  }

  /** The generator rewrites these entries. */
  predicate IsOverridden(c: Character) {
    IsCompatibilityJamo(c.ch) && HangulPayload(c.ch, c.nfkc) != 127
  }

  function JamoMeaning(c: Character): Meaning {
    Meaning(Handled(HangulPayload(c.ch, c.nfkc)), HANGUL, None)
  }

  // ---- what a lookup gives -----------------------------------------------------------

  type Characters = CodePoint -> Character

  ghost predicate IsAlphabet(chars: Characters) {
    forall cp: CodePoint :: chars(cp).Valid() && chars(cp).ch == cp
  }

  /** The generator makes an entry for the character. */
  predicate IsBuilt(c: Character) {
    c.ch < BMP || (c.known && !IsPlainHan(c))
  }

  /** A character that stands for itself, with no script and no form. */
  function Itself(ch: CodePoint): Meaning {
    Meaning(Emits(UnitsOf(ch)), NONE, None)
  }

  /** The fallback's answer: the character itself, and Han for its ranges. */
  function Fallback(ch: CodePoint): Meaning {
    Itself(ch).(script := if InRanges(ch, AstralRanges(HAN_RANGES)) then HAN else NONE)
  }

  /** The letters of the compatibility block and the half-width forms, to the last one. */
  lemma JamoRanges(cp: nat)
    ensures IsCompatibilityJamo(cp) <==> 0x3131 <= cp <= 0x318E || 0xFFA0 <= cp <= 0xFFDC
  {
  }

  /** What the engine is to find: the fallback only where nothing was built or the entry says nothing. */
  function Expected(c: Character): Meaning {
    if IsOverridden(c) then JamoMeaning(c)
    else if IsBuilt(c) && (c.ch < BMP || Wanted(c) != Itself(c.ch)) then Wanted(c)
    else Fallback(c.ch)
  }

  /** Astral characters that are unassigned, or ideographs without a simplified form, are left to the fallback. */
  lemma LeftOutIs(c: Character)
    requires c.ch >= BMP
    ensures !c.known || (InRanges(c.ch, HAN_RANGES) && c.letter && !IsCompatibility(c.ch) && !c.simplified) <==> !IsBuilt(c)
    ensures !IsBuilt(c) ==> Expected(c) == Fallback(c.ch)
  {
  }

  /**
    What the Unicode tables and the primary fold promise: unassigned characters
    and plain ideographs fold to themselves, and a compatibility jamo folds
    to a jamo the Hangul handler reads.
  */
  ghost predicate IsCoherent(c: Character) {
    (!c.known && c.ch >= BMP ==> Wanted(c) == Itself(c.ch)) &&
    (IsPlainHan(c) && c.ch >= BMP ==> Wanted(c) == Itself(c.ch).(script := HAN)) &&
    (IsOverridden(c) ==>
       c.handler.None? &&
       c.nfkcHandler == Some(Handler(HANGUL, HangulPayload(c.nfkc[0], c.nfkc), None)))
  }

  /** Every character is looked up as wanted, but for the script of one that stands for itself in a Han range. */
  lemma ExpectedIsWanted(c: Character)
    requires IsCoherent(c)
    ensures Expected(c).output == Wanted(c).output && Expected(c).form == Wanted(c).form
    ensures Expected(c).script == Wanted(c).script <==>
            !(c.ch >= BMP && Wanted(c) == Itself(c.ch) && InRanges(c.ch, AstralRanges(HAN_RANGES)))
  {
    if c.ch >= BMP {
      AstralHan(c.ch);
    } else if IsOverridden(c) {
      JamoIsSingle(c);
    } else {
      assert Expected(c) == Wanted(c);
    }
  }

  /** The rewritten entries were right before. */
  lemma JamoIsSingle(c: Character)
    requires IsOverridden(c) && IsCoherent(c)
    ensures Wanted(c) == JamoMeaning(c)
  {
    assert |c.nfkc| == 1 && c.nfkc[0] < 0x1200;
  }

  // ---- the generator -----------------------------------------------------------------

  type Forms = map<nat, Text>

  /** The forms recorded for the code points below n. */
  ghost predicate FormsUpTo(forms: Forms, chars: Characters, n: nat) {
    (forall cp :: cp in forms ==> cp < n && cp < LIMIT) &&
    (forall cp: CodePoint :: cp < n && (cp < BMP || IsBuilt(chars(cp))) ==>
       if Wanted(chars(cp)).form.Some? then cp in forms && forms[cp] == Wanted(chars(cp)).form.value
       else cp !in forms)
  }

  /** One entry for each code point below n. */
  ghost predicate BmpUpTo(bmp: seq<nat>, chars: Characters, units: seq<Unit>) {
    forall cp: CodePoint :: cp < |bmp| ==> Means(bmp[cp], cp, units, Wanted(chars(cp)))
  }

  lemma MeansIsStable(entry: nat, cp: CodePoint, units: seq<Unit>, more: seq<Unit>, m: Meaning)
    requires Means(entry, cp, units, m) && units <= more
    ensures Means(entry, cp, more, m)
  {
    ReadIsStable(entry, cp, units, more);
  }

  lemma BmpIsStable(bmp: seq<nat>, chars: Characters, units: seq<Unit>, more: seq<Unit>)
    requires BmpUpTo(bmp, chars, units) && units <= more
    ensures BmpUpTo(bmp, chars, more)
  {
    forall cp: CodePoint | cp < |bmp| ensures Means(bmp[cp], cp, more, Wanted(chars(cp))) {
      MeansIsStable(bmp[cp], cp, units, more, Wanted(chars(cp)));
    }
  }

  lemma BmpAdded(bmp: seq<nat>, chars: Characters, units: seq<Unit>, entry: nat, more: seq<Unit>)
    requires |bmp| < BMP && BmpUpTo(bmp, chars, units) && units <= more
    requires Means(entry, |bmp|, more, Wanted(chars(|bmp|)))
    ensures BmpUpTo(bmp + [entry], chars, more)
  {
    BmpIsStable(bmp, chars, units, more);
  }

  function Noted(forms: Forms, cp: nat, form: Option<Text>): Forms {
    if form.Some? then forms[cp := form.value] else forms
  }

  lemma FormNoted(forms: Forms, chars: Characters, cp: CodePoint)
    requires IsAlphabet(chars) && FormsUpTo(forms, chars, cp)
    ensures IsBuilt(chars(cp)) ==> FormsUpTo(Noted(forms, cp, Wanted(chars(cp)).form), chars, cp + 1)
    ensures !IsBuilt(chars(cp)) || Wanted(chars(cp)).form.None? ==> FormsUpTo(forms, chars, cp + 1)
  {
  }

  /** Some built character is too big for its entry. */
  ghost predicate Overflows(chars: Characters) {
    exists cp: CodePoint :: IsBuilt(chars(cp)) && TooBig(Wanted(chars(cp)).output)
  }

  ghost predicate FitsUpTo(chars: Characters, n: nat) {
    forall cp: CodePoint :: cp < n && IsBuilt(chars(cp)) ==> !TooBig(Wanted(chars(cp)).output)
  }

  method BuildBmp(pool: Pool, chars: Characters) returns (bmp: Option<seq<nat>>, forms: Forms)
    requires pool.Valid() && IsAlphabet(chars)
    modifies pool
    ensures pool.Valid()
    ensures bmp.None? ==> Overflows(chars) || |pool.units| >= PAYLOAD_LIMIT
    ensures bmp.Some? ==> |bmp.value| == BMP && BmpUpTo(bmp.value, chars, pool.units)
    ensures bmp.Some? ==> FormsUpTo(forms, chars, BMP) && FitsUpTo(chars, BMP)
  {
    var rows: seq<nat> := [];
    forms := map[];
    while |rows| < BMP
      invariant |rows| <= BMP && pool.Valid()
      invariant BmpUpTo(rows, chars, pool.units)
      invariant FormsUpTo(forms, chars, |rows|) && FitsUpTo(chars, |rows|)
    {
      ghost var before := pool.units;
      var cp: CodePoint := |rows|;
      var entry, form := EntryFor(pool, chars(cp));
      if entry.None? {
        return None, forms;
      }
      BmpAdded(rows, chars, before, entry.value, pool.units);
      FormNoted(forms, chars, cp);
      rows := rows + [entry.value];
      if form.Some? {
        forms := forms[cp := form.value];
      }
    }
    bmp := Some(rows);
  }

  // ---- the rewritten entries ---------------------------------------------------------

  function JamoEntry(c: Character): (entry: nat)
    ensures Pack(SCRIPT, HANGUL, HangulPayload(c.ch, c.nfkc), 0, false) == Some(entry)
  {
    Pack(SCRIPT, HANGUL, HangulPayload(c.ch, c.nfkc), 0, false).value
  }

  lemma JamoMeans(c: Character, units: seq<Unit>)
    ensures Means(JamoEntry(c), c.ch, units, JamoMeaning(c))
  {
    PackRoundTrip(SCRIPT, HANGUL, HangulPayload(c.ch, c.nfkc), 0, false);
  }

  predicate IsOverriddenIn(c: Character, first: nat, end: nat) {
    first <= c.ch < end && HangulPayload(c.ch, c.nfkc) != 127
  }

  method OverrideRange(bmp: seq<nat>, chars: Characters, first: nat, end: nat) returns (after: seq<nat>)
    requires |bmp| == BMP && first <= end <= BMP && IsAlphabet(chars)
    ensures |after| == BMP
    ensures forall cp: CodePoint :: cp < BMP ==>
      after[cp] == if IsOverriddenIn(chars(cp), first, end) then JamoEntry(chars(cp)) else bmp[cp]
  {
    after := bmp;
    for cp: int := first to end
      invariant |after| == BMP
      invariant forall i: CodePoint :: i < BMP ==>
        after[i] == if IsOverriddenIn(chars(i), first, cp) then JamoEntry(chars(i)) else bmp[i]
    {
      var c := chars(cp);
      if HangulPayload(cp, c.nfkc) != 127 {
        after := after[cp := JamoEntry(c)];
      }
    }
  }

  /** The finished entries below BMP. */
  ghost predicate BmpDone(bmp: seq<nat>, chars: Characters, units: seq<Unit>) {
    |bmp| == BMP &&
    forall cp: CodePoint :: cp < BMP ==> Means(bmp[cp], cp, units, Expected(chars(cp)))
  }

  method OverrideJamo(bmp: seq<nat>, chars: Characters, ghost units: seq<Unit>) returns (after: seq<nat>)
    requires |bmp| == BMP && IsAlphabet(chars) && BmpUpTo(bmp, chars, units)
    ensures BmpDone(after, chars, units)
  {
    var between := OverrideRange(bmp, chars, 0x3131, 0x318F);
    after := OverrideRange(between, chars, 0xFFA0, 0xFFDD);
    forall cp: CodePoint | cp < BMP ensures Means(after[cp], cp, units, Expected(chars(cp))) {
      var c := chars(cp);
      if IsOverridden(c) {
        assert after[cp] == JamoEntry(c);
        JamoMeans(c, units);
      } else {
        assert after[cp] == bmp[cp] && Expected(c) == Wanted(c);
      }
    }
  }

  // ---- the astral entries ------------------------------------------------------------

  ghost predicate HasRow<T>(rows: seq<Row<T>>, cp: nat) {
    exists k :: 0 <= k < |rows| && rows[k].cp == cp
  }

  lemma HasRowAppended<T>(rows: seq<Row<T>>, row: Row<T>)
    ensures forall cp :: HasRow(rows + [row], cp) <==> HasRow(rows, cp) || cp == row.cp
  {
    var more := rows + [row];
    assert more[|rows|] == row;
    forall cp | HasRow(rows, cp) ensures HasRow(more, cp) {
      var k :| 0 <= k < |rows| && rows[k].cp == cp;
      assert more[k].cp == cp;
    }
  }

  /** The character gets a row of its own. */
  predicate IsListed(c: Character) {
    IsBuilt(c) && Wanted(c) != Itself(c.ch)
  }

  ghost predicate RowMeans(row: Row<nat>, chars: Characters, units: seq<Unit>) {
    BMP <= row.cp < LIMIT && Means(row.value, row.cp, units, Wanted(chars(row.cp)))
  }

  /** Sorted rows for exactly the listed characters below n. */
  ghost predicate AstralUpTo(rows: seq<Row<nat>>, chars: Characters, units: seq<Unit>, n: nat) {
    Sorted(rows) &&
    (forall k :: 0 <= k < |rows| ==> rows[k].cp < n && RowMeans(rows[k], chars, units)) &&
    (forall cp: CodePoint :: BMP <= cp < n ==> (HasRow(rows, cp) <==> IsListed(chars(cp))))
  }

  lemma AstralIsStable(rows: seq<Row<nat>>, chars: Characters, units: seq<Unit>, more: seq<Unit>, n: nat)
    requires AstralUpTo(rows, chars, units, n) && units <= more
    ensures AstralUpTo(rows, chars, more, n)
  {
    forall k | 0 <= k < |rows| ensures RowMeans(rows[k], chars, more) {
      MeansIsStable(rows[k].value, rows[k].cp, units, more, Wanted(chars(rows[k].cp)));
    }
  }

  lemma AstralListed(rows: seq<Row<nat>>, chars: Characters, units: seq<Unit>, cp: CodePoint, entry: nat)
    requires AstralUpTo(rows, chars, units, cp) && cp >= BMP && IsListed(chars(cp))
    requires Means(entry, cp, units, Wanted(chars(cp)))
    ensures AstralUpTo(rows + [Row(cp, entry)], chars, units, cp + 1)
  {
    HasRowAppended(rows, Row(cp, entry));
  }

  lemma AstralOmitted(rows: seq<Row<nat>>, chars: Characters, units: seq<Unit>, cp: CodePoint)
    requires AstralUpTo(rows, chars, units, cp) && cp >= BMP && !IsListed(chars(cp))
    ensures AstralUpTo(rows, chars, units, cp + 1)
  {
    assert !HasRow(rows, cp);
  }

  /** A built entry is left out exactly when the character stands for itself. */
  lemma ListedUnlessPlain(c: Character, entry: nat, units: seq<Unit>)
    requires Means(entry, c.ch, units, Wanted(c)) && IsBuilt(c)
    requires Wanted(c).output == Emits(UnitsOf(c.ch)) ==> Unpack(entry).kind == KEEP
    ensures IsListed(c) <==>
            !(Unpack(entry).kind == KEEP && Unpack(entry).script == NONE && Wanted(c).form.None?)
  {
  }

  method BuildAstral(pool: Pool, chars: Characters, bmpForms: Forms)
    returns (astral: Option<seq<Row<nat>>>, forms: Forms)
    requires pool.Valid() && IsAlphabet(chars) && FormsUpTo(bmpForms, chars, BMP) && FitsUpTo(chars, BMP)
    modifies pool
    ensures pool.Valid() && old(pool.units) <= pool.units
    ensures astral.None? ==> Overflows(chars) || |pool.units| >= PAYLOAD_LIMIT
    ensures astral.Some? ==> AstralUpTo(astral.value, chars, pool.units, LIMIT)
    ensures astral.Some? ==> FormsUpTo(forms, chars, LIMIT) && FitsUpTo(chars, LIMIT)
  {
    var rows: seq<Row<nat>> := [];
    forms := bmpForms;
    var cp := BMP;
    while cp < LIMIT
      invariant BMP <= cp <= LIMIT && pool.Valid() && old(pool.units) <= pool.units
      invariant AstralUpTo(rows, chars, pool.units, cp)
      invariant FormsUpTo(forms, chars, cp) && FitsUpTo(chars, cp)
    {
      var c := chars(cp);
      FormNoted(forms, chars, cp);
      if !c.known || IsPlainHan(c) {
        AstralOmitted(rows, chars, pool.units, cp);
        cp := cp + 1;
        continue;
      }
      ghost var before := pool.units;
      var entry, form := EntryFor(pool, c);
      if entry.None? {
        return None, forms;
      }
      AstralIsStable(rows, chars, before, pool.units, cp);
      var fields := Unpack(entry.value);
      ListedUnlessPlain(c, entry.value, pool.units);
      if fields.kind == KEEP && fields.script == NONE && form.None? {
        AstralOmitted(rows, chars, pool.units, cp);
        cp := cp + 1;
        continue;
      }
      AstralListed(rows, chars, pool.units, cp, entry.value);
      rows := rows + [Row(cp, entry.value)];
      if form.Some? {
        forms := forms[cp := form.value];
      }
      cp := cp + 1;
    }
    astral := Some(rows);
  }

  // ---- the forms ---------------------------------------------------------------------

  ghost predicate HoldsText(slice: Slice, units: seq<Unit>, text: Text) {
    InRange(slice, units) && At(slice, units) == Encode(text)
  }

  /** Rows for the first code points of the list, each at its form. */
  ghost predicate FormRows(rows: seq<Row<Slice>>, forms: Forms, cps: seq<nat>, units: seq<Unit>) {
    |rows| <= |cps| &&
    forall k :: 0 <= k < |rows| ==>
      rows[k].cp == cps[k] && cps[k] in forms && HoldsText(rows[k].value, units, forms[cps[k]])
  }

  lemma FormRowsAreStable(rows: seq<Row<Slice>>, forms: Forms, cps: seq<nat>, units: seq<Unit>, more: seq<Unit>)
    requires FormRows(rows, forms, cps, units) && units <= more
    ensures FormRows(rows, forms, cps, more)
  {
    forall k | 0 <= k < |rows| ensures HoldsText(rows[k].value, more, forms[cps[k]]) {
      AtIsStable(rows[k].value, units, more);
    }
  }

  lemma FormRowAdded(rows: seq<Row<Slice>>, forms: Forms, cps: seq<nat>, units: seq<Unit>, slice: Slice, more: seq<Unit>)
    requires FormRows(rows, forms, cps, units) && units <= more
    requires |rows| < |cps| && cps[|rows|] in forms && HoldsText(slice, more, forms[cps[|rows|]])
    ensures FormRows(rows + [Row(cps[|rows|], slice)], forms, cps, more)
  {
    FormRowsAreStable(rows, forms, cps, units, more);
  }

  method EmitForms(pool: Pool, forms: Forms) returns (rows: seq<Row<Slice>>)
    requires pool.Valid()
    modifies pool
    ensures pool.Valid() && old(pool.units) <= pool.units
    ensures FormRows(rows, forms, Ascending(forms.Keys), pool.units) && |rows| == |Ascending(forms.Keys)|
  {
    var cps := Ascending(forms.Keys);
    rows := [];
    for k := 0 to |cps|
      invariant pool.Valid() && old(pool.units) <= pool.units
      invariant |rows| == k && FormRows(rows, forms, cps, pool.units)
    {
      ghost var before := pool.units;
      assert cps[k] in cps;
      var slice := pool.Add(forms[cps[k]]);
      FormRowAdded(rows, forms, cps, before, slice, pool.units);
      rows := rows + [Row(cps[k], slice)];
    }
  }

  /** Every form is found. */
  lemma FormIsFound(rows: seq<Row<Slice>>, forms: Forms, units: seq<Unit>, cp: nat)
    requires FormRows(rows, forms, Ascending(forms.Keys), units) && |rows| == |Ascending(forms.Keys)|
    requires cp in forms
    ensures Lookup(rows, cp).Some? && HoldsText(Lookup(rows, cp).value, units, forms[cp])
  {
    var cps := Ascending(forms.Keys);
    assert cp in cps;
    var k :| 0 <= k < |cps| && cps[k] == cp;
    LookupFinds(rows, cp, rows[k].value);
  }

  // ---- the finished tables -------------------------------------------------------------

  lemma KeepEntries()
    ensures Unpack(KEEP) == Fields(KEEP, NONE, 0, 0, 0)
    ensures Or(KEEP, Shl(HAN, 3)) == 160 && Unpack(160) == Fields(KEEP, HAN, 0, 0, 0)
  {
    PowersOfTwo();
    Join(KEEP, HAN, 3, 8);
    UnpackSum(KEEP, HAN, 0, 0, 0);
    UnpackSum(KEEP, NONE, 0, 0, 0);
  }

  lemma FallbackMeans(cp: CodePoint, units: seq<Unit>)
    ensures Means(if InRanges(cp, AstralRanges(HAN_RANGES)) then Or(KEEP, Shl(HAN, 3)) else KEEP, cp, units, Fallback(cp))
  {
    KeepEntries();
    if InRanges(cp, AstralRanges(HAN_RANGES)) {
      assert Means(160, cp, units, Itself(cp).(script := HAN));
    } else {
      assert Means(KEEP, cp, units, Itself(cp));
    }
  }

  lemma ListedIsExpected(t: Tables, chars: Characters, cp: CodePoint)
    requires IsAlphabet(chars) && cp >= BMP && IsListed(chars(cp))
    requires AstralUpTo(t.astral, chars, t.units, LIMIT)
    ensures Means(AstralEntry(t, cp), cp, t.units, Wanted(chars(cp)))
  {
    assert HasRow(t.astral, cp);
    var k :| 0 <= k < |t.astral| && t.astral[k].cp == cp;
    LookupFinds(t.astral, cp, t.astral[k].value);
    assert RowMeans(t.astral[k], chars, t.units);
  }

  lemma UnlistedIsExpected(t: Tables, chars: Characters, cp: CodePoint)
    requires IsAlphabet(chars) && cp >= BMP && !IsListed(chars(cp))
    requires AstralUpTo(t.astral, chars, t.units, LIMIT) && t.han == AstralRanges(HAN_RANGES)
    ensures Means(AstralEntry(t, cp), cp, t.units, Fallback(cp))
  {
    assert !HasRow(t.astral, cp);
    assert Lookup<nat>(t.astral, cp) == None;
    FallbackMeans(cp, t.units);
  }

  lemma AstralIsExpected(t: Tables, chars: Characters, cp: CodePoint)
    requires IsAlphabet(chars) && cp >= BMP
    requires AstralUpTo(t.astral, chars, t.units, LIMIT) && t.han == AstralRanges(HAN_RANGES)
    ensures Means(AstralEntry(t, cp), cp, t.units, Expected(chars(cp)))
  {
    if IsListed(chars(cp)) {
      ListedIsExpected(t, chars, cp);
    } else {
      UnlistedIsExpected(t, chars, cp);
    }
  }

  /** The entries below BMP, the astral rows and the forms are those of the characters. */
  ghost predicate AreTablesOf(t: Tables, chars: Characters, forms: Forms) {
    BmpDone(t.bmp, chars, t.units) &&
    AstralUpTo(t.astral, chars, t.units, LIMIT) && t.han == AstralRanges(HAN_RANGES) &&
    FormsUpTo(forms, chars, LIMIT) &&
    FormRows(t.decomp, forms, Ascending(forms.Keys), t.units) && |t.decomp| == |Ascending(forms.Keys)|
  }

  lemma ExpectedForm(c: Character)
    ensures Expected(c).form.Some? ==> IsBuilt(c) && Expected(c) == Wanted(c)
  {
  }

  lemma EntryIsExpected(t: Tables, chars: Characters, forms: Forms, cp: CodePoint)
    requires IsAlphabet(chars) && AreTablesOf(t, chars, forms)
    ensures |t.bmp| == BMP && Means(EntryOf(t, cp), cp, t.units, Expected(chars(cp)))
  {
    if cp >= BMP {
      AstralIsExpected(t, chars, cp);
    }
  }

  lemma FormIsExpected(t: Tables, chars: Characters, forms: Forms, cp: CodePoint)
    requires IsAlphabet(chars) && AreTablesOf(t, chars, forms) && Expected(chars(cp)).form.Some?
    ensures DecompOf(t, cp) == Encode(Expected(chars(cp)).form.value)
  {
    ExpectedForm(chars(cp));
    FormIsFound(t.decomp, forms, t.units, cp);
  }

  lemma LookupIsExpected(t: Tables, chars: Characters, forms: Forms, cp: CodePoint)
    requires IsAlphabet(chars) && AreTablesOf(t, chars, forms)
    ensures LooksUp(t, cp, Expected(chars(cp)))
  {
    EntryIsExpected(t, chars, forms, cp);
    if Expected(chars(cp)).form.Some? {
      FormIsExpected(t, chars, forms, cp);
    }
  }

  lemma BmpDoneIsStable(bmp: seq<nat>, chars: Characters, units: seq<Unit>, more: seq<Unit>)
    requires BmpDone(bmp, chars, units) && units <= more
    ensures BmpDone(bmp, chars, more)
  {
    forall cp: CodePoint | cp < BMP ensures Means(bmp[cp], cp, more, Expected(chars(cp))) {
      MeansIsStable(bmp[cp], cp, units, more, Expected(chars(cp)));
    }
  }

  method AddAll(pool: Pool, texts: seq<Text>)
    requires pool.Valid()
    modifies pool
    ensures pool.Valid() && old(pool.units) <= pool.units
  {
    for k := 0 to |texts|
      invariant pool.Valid() && old(pool.units) <= pool.units
    {
      var _ := pool.Add(texts[k]);
    }
  }

  lemma TablesAreRight(t: Tables, chars: Characters, forms: Forms)
    requires IsAlphabet(chars) && AreTablesOf(t, chars, forms)
    ensures forall cp: CodePoint :: LooksUp(t, cp, Expected(chars(cp)))
  {
    forall cp: CodePoint ensures LooksUp(t, cp, Expected(chars(cp))) {
      LookupIsExpected(t, chars, forms, cp);
    }
  }

  /** Puts the forms and the other texts into the pool, and the tables together if it still fits. */
  method Emit(pool: Pool, chars: Characters, bmp: seq<nat>, astral: seq<Row<nat>>, forms: Forms, others: seq<Text>)
    returns (tables: Option<Tables>, units: seq<Unit>)
    requires pool.Valid() && IsAlphabet(chars) && BmpDone(bmp, chars, pool.units)
    requires AstralUpTo(astral, chars, pool.units, LIMIT) && FormsUpTo(forms, chars, LIMIT)
    modifies pool
    ensures tables.None? <==> |units| >= PAYLOAD_LIMIT
    ensures tables.Some? ==> tables.value.units == units && AreTablesOf(tables.value, chars, forms)
  {
    ghost var before := pool.units;
    var decomp := EmitForms(pool, forms);
    ghost var between := pool.units;
    AddAll(pool, others);
    units, tables := pool.units, None;
    if |units| < PAYLOAD_LIMIT {
      BmpDoneIsStable(bmp, chars, before, units);
      AstralIsStable(astral, chars, before, units, LIMIT);
      FormRowsAreStable(decomp, forms, Ascending(forms.Keys), between, units);
      tables := Some(Tables(bmp, astral, AstralRanges(HAN_RANGES), decomp, units));
    }
  }

  /**
    The whole generator; `others` are the texts the other tables put into the
    pool.  Every code point is looked up as expected, and there are no
    tables exactly when a built character is too big or the pool is full.
  */
  method Build(chars: Characters, others: seq<Text>) returns (tables: Option<Tables>, units: seq<Unit>)
    requires IsAlphabet(chars)
    ensures tables.Some? ==> tables.value.units == units
    ensures tables.Some? ==> forall cp: CodePoint :: LooksUp(tables.value, cp, Expected(chars(cp)))
    ensures tables.None? <==> |units| >= PAYLOAD_LIMIT || Overflows(chars)
  {
    var pool := new Pool();
    var bmp, bmpForms := BuildBmp(pool, chars);
    if bmp.None? {
      return None, pool.units;
    }
    var entries := OverrideJamo(bmp.value, chars, pool.units);
    ghost var first := pool.units;
    var astral, forms := BuildAstral(pool, chars, bmpForms);
    if astral.None? {
      return None, pool.units;
    }
    BmpDoneIsStable(entries, chars, first, pool.units);
    tables, units := Emit(pool, chars, entries, astral.value, forms, others);
    if tables.Some? {
      TablesAreRight(tables.value, chars, forms);
    }
  }
}
