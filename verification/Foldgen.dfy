/**
  The fold table generator: a pool of UTF-16 strings in which equal strings
  share a slice, and packed 32-bit entries that point into it.
*/
module Foldgen {
  import opened Wrappers
  import opened Bits
  import opened Utf16

  const KEEP := 0
  const CHAR := 1
  const POOL := 2
  const DROP := 3
  const SCRIPT := 4
  const EXPAND := 5

  const SCRIPT_COUNT := 22
  const NONE := 0
  const LATIN := 2
  const HAN := 20
  const HANGUL := 21

  const PAYLOAD_BITS := 17
  const PAYLOAD_LIMIT := 0x20000
  const MAX_LEN := 63

  // ---- packed entries ------------------------------------------------------------

  predicate Fits(payload: nat, length: nat) {
    payload < PAYLOAD_LIMIT && length <= MAX_LEN
  }

  /** The entry, or nothing where the generator's assertions stop it. */
  function Pack(kind: nat, script: nat, payload: nat, length: nat, decomp: bool): Option<nat> {
    if !Fits(payload, length) then None
    else
      Some(Or(Or(Or(Or(kind, Shl(script, 3)), Shl(if decomp then 1 else 0, 8)), Shl(length, 9)), Shl(payload, 15)))
  }

  datatype Fields = Fields(kind: nat, script: nat, decomp: nat, length: nat, payload: nat)

  function Unpack(entry: nat): Fields {
    Fields(And(entry, 7), And(Shr(entry, 3), 31), And(Shr(entry, 8), 1), And(Shr(entry, 9), 63), Shr(entry, 15))
  }

  function Sum(kind: nat, script: nat, payload: nat, length: nat, decomp: nat): nat {
    kind + 8 * script + 256 * decomp + 512 * length + 32768 * payload
  }

  /** The fields do not overlap, so joining them adds them. */
  lemma PackIsSum(kind: nat, script: nat, payload: nat, length: nat, decomp: nat)
    requires kind < 8 && script < 32 && decomp < 2 && Fits(payload, length)
    ensures Or(Or(Or(Or(kind, Shl(script, 3)), Shl(decomp, 8)), Shl(length, 9)), Shl(payload, 15)) ==
            Sum(kind, script, payload, length, decomp)
  {
    PowersOfTwo();
    Join(kind, script, 3, 8);
    Join(kind + 8 * script, decomp, 8, 256);
    Join(kind + 8 * script + 256 * decomp, length, 9, 512);
    Join(kind + 8 * script + 256 * decomp + 512 * length, payload, 15, 32768);
  }

  lemma Join(low: nat, field: nat, k: nat, p: nat)
    requires p == Pow2(k) && low < p && Shl(field, k) == p * field
    ensures Or(low, Shl(field, k)) == low + p * field
  {
    OrOfDisjoint(low, field, k);
  }

  lemma ShiftSum(kind: nat, script: nat, payload: nat, length: nat, decomp: nat)
    requires kind < 8 && script < 32 && decomp < 2 && length < 64
    ensures
      var entry := Sum(kind, script, payload, length, decomp);
      Shr(entry, 3) == script + 32 * (decomp + 2 * (length + 64 * payload)) &&
      Shr(entry, 8) == decomp + 2 * (length + 64 * payload) &&
      Shr(entry, 9) == length + 64 * payload &&
      Shr(entry, 15) == payload
  {
    Drop3(kind, script + 32 * (decomp + 2 * (length + 64 * payload)));
    Drop8(kind + 8 * script, decomp + 2 * (length + 64 * payload));
    Drop9(kind + 8 * script + 256 * decomp, length + 64 * payload);
    Drop15(kind + 8 * script + 256 * decomp + 512 * length, payload);
  }

  lemma UnpackSum(kind: nat, script: nat, payload: nat, length: nat, decomp: nat)
    requires kind < 8 && script < 32 && decomp < 2 && Fits(payload, length)
    ensures Unpack(Sum(kind, script, payload, length, decomp)) == Fields(kind, script, decomp, length, payload)
  {
    ShiftSum(kind, script, payload, length, decomp);
    Mask3(kind, script + 32 * decomp + 64 * length + 4096 * payload);
    Mask5(script, decomp + 2 * (length + 64 * payload));
    Mask1(decomp, length + 64 * payload);
    Mask6(length, payload);
  }

  lemma Mask1(low: nat, rest: nat)
    requires low < 2
    ensures And(low + 2 * rest, 1) == low
  {
    PowersOfTwo();
    MaskOfSum(low, rest, 1);
    assert Shl(rest, 1) == 2 * rest;
  }

  lemma Mask3(low: nat, rest: nat)
    requires low < 8
    ensures And(low + 8 * rest, 7) == low
  {
    PowersOfTwo();
    MaskOfSum(low, rest, 3);
    assert Shl(rest, 3) == 8 * rest;
  }

  lemma Mask5(low: nat, rest: nat)
    requires low < 32
    ensures And(low + 32 * rest, 31) == low
  {
    PowersOfTwo();
    MaskOfSum(low, rest, 5);
    assert Shl(rest, 5) == 32 * rest;
  }

  lemma Mask6(low: nat, rest: nat)
    requires low < 64
    ensures And(low + 64 * rest, 63) == low
  {
    PowersOfTwo();
    MaskOfSum(low, rest, 6);
    assert Shl(rest, 6) == 64 * rest;
  }

  lemma Drop3(low: nat, rest: nat)
    requires low < 8
    ensures Shr(low + 8 * rest, 3) == rest
  {
    PowersOfTwo();
    ShrOfSum(low, rest, 3);
    assert Shl(rest, 3) == 8 * rest;
  }

  lemma Drop8(low: nat, rest: nat)
    requires low < 256
    ensures Shr(low + 256 * rest, 8) == rest
  {
    PowersOfTwo();
    ShrOfSum(low, rest, 8);
    assert Shl(rest, 8) == 256 * rest;
  }

  lemma Drop9(low: nat, rest: nat)
    requires low < 512
    ensures Shr(low + 512 * rest, 9) == rest
  {
    PowersOfTwo();
    ShrOfSum(low, rest, 9);
    assert Shl(rest, 9) == 512 * rest;
  }

  lemma Drop15(low: nat, rest: nat)
    requires low < 32768
    ensures Shr(low + 32768 * rest, 15) == rest
  {
    PowersOfTwo();
    ShrOfSum(low, rest, 15);
    assert Shl(rest, 15) == 32768 * rest;
  }

  /** Packing succeeds exactly within the bounds; unpacking then gives the fields back, from 32 bits. */
  lemma PackRoundTrip(kind: nat, script: nat, payload: nat, length: nat, decomp: bool)
    requires kind < 8 && script < 32
    ensures Pack(kind, script, payload, length, decomp).Some? <==> payload < 0x20000 && length <= 63
    ensures
      Pack(kind, script, payload, length, decomp).Some? ==>
        var entry := Pack(kind, script, payload, length, decomp).value;
        entry < 0x1_0000_0000 &&
        Unpack(entry) == Fields(kind, script, if decomp then 1 else 0, length, payload)
  {
    if Fits(payload, length) {
      PackIsSum(kind, script, payload, length, if decomp then 1 else 0);
      UnpackSum(kind, script, payload, length, if decomp then 1 else 0);
    }
  }

  // ---- the string pool -------------------------------------------------------------

  datatype Slice = Slice(offset: nat, length: nat)

  predicate InRange(s: Slice, units: seq<Unit>) {
    s.offset + s.length <= |units|
  }

  function At(s: Slice, units: seq<Unit>): seq<Unit>
    requires InRange(s, units)
  {
    units[s.offset..s.offset + s.length]
  }

  /** Little-endian bytes, as an encoder hands them out. */
  function Bytes(units: seq<Unit>): seq<nat> {
    if units == [] then [] else [units[0] % 256, units[0] / 256] + Bytes(units[1..])
  }

  lemma {:induction false} BytesAt(units: seq<Unit>, k: nat)
    requires k < |units|
    ensures |Bytes(units)| == 2 * |units|
    ensures Bytes(units)[2 * k] + 256 * Bytes(units)[2 * k + 1] == units[k]
  {
    if |units| > 1 {
      BytesAt(units[1..], if k == 0 then 0 else k - 1);
    }
  }

  predicate Indexed(index: map<Text, Slice>, units: seq<Unit>) {
    forall t :: t in index ==> InRange(index[t], units) && At(index[t], units) == Encode(t)
  }

  lemma IndexedMore(index: map<Text, Slice>, units: seq<Unit>, text: Text)
    requires Indexed(index, units) && text !in index
    ensures Indexed(index[text := Slice(|units|, |Encode(text)|)], units + Encode(text))
  {
    var more := units + Encode(text);
    assert At(Slice(|units|, |Encode(text)|), more) == Encode(text);
    forall t | t in index ensures InRange(index[t], more) && At(index[t], more) == Encode(t) {
      AtIsStable(index[t], units, more);
    }
  }

  lemma AtIsStable(s: Slice, units: seq<Unit>, more: seq<Unit>)
    requires InRange(s, units) && units <= more
    ensures InRange(s, more) && At(s, more) == At(s, units)
  {
  }

  class Pool {
    var units: seq<Unit>
    var index: map<Text, Slice>

    /** Every indexed text is at its slice. */
    predicate Valid()
      reads this
    {
      Indexed(index, units)
    }

    constructor ()
      ensures Valid() && units == [] && index == map[]
    {
      units, index := [], map[];
    }

    /**
      The slice of a text.  A new text goes to the end; a known one changes
      nothing.  Every slice handed out before stays where it is.
    */
    method Add(text: Text) returns (slice: Slice)
      requires Valid()
      modifies this
      ensures Valid() && text in index && slice == index[text]
      ensures InRange(slice, units) && At(slice, units) == Encode(text)
      ensures units == if text in old(index) then old(units) else old(units) + Encode(text)
      ensures index.Keys == old(index.Keys) + {text}
      ensures forall t :: t in old(index) ==> index[t] == old(index)[t]
    {
      if text in index {
        return index[text];
      }
      var raw := Bytes(Encode(text));
      var own: seq<Unit> := ReadUnits(raw, Encode(text));
      IndexedMore(index, units, text);
      slice := Slice(|units|, |own|);
      units := units + own;
      index := index[text := slice];
    }
  }

  /** Reads the byte pairs back into units. */
  method ReadUnits(raw: seq<nat>, ghost encoded: seq<Unit>) returns (units: seq<Unit>)
    requires raw == Bytes(encoded)
    ensures units == encoded
  {
    units := [];
    if encoded != [] {
      BytesAt(encoded, 0);
    }
    var i := 0;
    while i < |raw|
      invariant i == 2 * |units| && |raw| == 2 * |encoded| && |units| <= |encoded|
      invariant units == encoded[..|units|]
    {
      BytesAt(encoded, |units|);
      units := units + [raw[i] + 256 * raw[i + 1]];
      i := i + 2;
    }
  }

  /** Different texts never share a slice. */
  lemma SlicesAreInjective(pool: Pool, a: Text, b: Text)
    requires pool.Valid() && a in pool.index && b in pool.index && pool.index[a] == pool.index[b]
    ensures a == b
  {
    EncodeIsInjective(a, b);
  }

  // ---- entries -----------------------------------------------------------------------

  datatype Handler = Handler(script: nat, payload: nat, form: Option<Text>)

  /**
    What the Unicode tables say about a character.  `text` is its primary fold,
    if it has one, and `candidate` what a handler of its script would read.
  */
  datatype Character = Character(ch: CodePoint, dropped: bool, alpha: bool, handler: Option<Handler>,
                                 nfkc: Text, nfkcHandler: Option<Handler>,
                                 text: Option<Text>, script: nat, candidate: Text,
                                 known: bool, letter: bool, simplified: bool)
  {
    predicate Valid() {
      script < SCRIPT_COUNT &&
      (handler.Some? ==> handler.value.script < SCRIPT_COUNT) &&
      (nfkcHandler.Some? ==> nfkcHandler.value.script < SCRIPT_COUNT)
    }
  }

  predicate IsSurrogate(cp: nat) {
    0xD800 <= cp <= 0xDFFF
  }

  /** LatinAlt, Greek and the Cyrillics, Hebrew, Arabic, Lao, Tibetan and Han. */
  predicate HasForms(script: nat) {
    3 <= script <= 8 || script in {11, 12, 17, 18, HAN}
  }

  /** The form recorded beside a text entry. */
  function FormOf(c: Character): Option<Text> {
    if HasForms(c.script) && c.candidate != [c.ch] then Some(c.candidate) else None
  }

  /** What an entry makes the fold engine do: emit units, fold an expansion, or call the script's handler. */
  datatype Output = Emits(units: seq<Unit>) | Folds(units: seq<Unit>) | Handled(payload: nat)

  /** All the engine learns about a character; `form` is what a handler reads in its place. */
  datatype Meaning = Meaning(output: Output, script: nat, form: Option<Text>)

  function HandlerMeaning(h: Handler): Meaning {
    Meaning(Handled(h.payload), h.script, h.form)
  }

  /** What the entry of a character is for. */
  function Wanted(c: Character): Meaning {
    if IsSurrogate(c.ch) then Meaning(Emits([c.ch]), NONE, None)
    else if c.ch < 0x80 then AsciiWanted(c)
    else if c.handler.Some? then HandlerMeaning(c.handler.value)
    else if |c.nfkc| == 1 && c.nfkc != [c.ch] && c.nfkcHandler.Some? then HandlerMeaning(c.nfkcHandler.value)
    else if c.text.None? then Meaning(Folds(Encode(c.nfkc)), NONE, None)
    else Meaning(Emits(Encode(c.text.value)), c.script, FormOf(c))
  }

  function AsciiWanted(c: Character): Meaning
    requires c.ch < 0x80
  {
    if c.dropped then Meaning(Emits([]), NONE, None)
    else if 'A' as nat <= c.ch <= 'Z' as nat then Meaning(Emits([c.ch + 32]), LATIN, None)
    else Meaning(Emits([c.ch]), if c.alpha then LATIN else NONE, None)
  }

  const UPPER := "ABCDEFGHIJKLMNOPQRSTUVWXYZ"
  const LOWER := "abcdefghijklmnopqrstuvwxyz"

  /** Below 0x80, capitals fold to their small letters, dropped controls to nothing, and all else to itself. */
  lemma AsciiFolds(c: Character, k: nat)
    requires c.ch < 0x80 && k < 26
    ensures c.ch == UPPER[k] as nat && !c.dropped ==> Wanted(c) == Meaning(Emits([LOWER[k] as nat]), LATIN, None)
    ensures c.dropped ==> Wanted(c) == Meaning(Emits([]), NONE, None)
    ensures !c.dropped && (c.ch as int < UPPER[0] as int || c.ch as int > UPPER[25] as int) ==>
      Wanted(c) == Meaning(Emits([c.ch]), if c.alpha then LATIN else NONE, None)
  {
    assert UPPER[k] as nat == 65 + k && LOWER[k] as nat == 97 + k;
  }

  /**
    From 0x80 on, a character's own handler goes first, then the handler of the
    single character it is compatible with, then its expansion where it has no
    text, and then its text.
  */
  lemma WantedIs(c: Character)
    requires c.ch >= 0x80 && !IsSurrogate(c.ch)
    ensures forall h :: c.handler == Some(h) ==> Wanted(c) == Meaning(Handled(h.payload), h.script, h.form)
    ensures forall x, h :: c.handler == None && c.nfkc == [x] && x != c.ch && c.nfkcHandler == Some(h) ==>
      Wanted(c) == Meaning(Handled(h.payload), h.script, h.form)
    ensures c.handler == None && (|c.nfkc| != 1 || c.nfkc[0] == c.ch || c.nfkcHandler == None) ==>
      (c.text == None ==> Wanted(c) == Meaning(Folds(Encode(c.nfkc)), NONE, None)) &&
      (forall text :: c.text == Some(text) ==>
         Wanted(c).output == Emits(Encode(text)) && Wanted(c).script == c.script &&
         (Wanted(c).form == Some(c.candidate) <==> HasForms(c.script) && c.candidate != [c.ch]) &&
         (Wanted(c).form != None ==> Wanted(c).form == Some(c.candidate)))
  {
  }

  /** How the engine reads an entry for a character. */
  function Read(entry: nat, ch: CodePoint, units: seq<Unit>): Option<Output> {
    ReadFields(Unpack(entry), ch, units)
  }

  function ReadFields(f: Fields, ch: CodePoint, units: seq<Unit>): Option<Output> {
    var slice := Slice(f.payload, f.length);
    if f.kind == KEEP then Some(Emits(UnitsOf(ch)))
    else if f.kind == CHAR then Some(Emits([f.payload % 0x10000]))
    else if f.kind == POOL && InRange(slice, units) then Some(Emits(At(slice, units)))
    else if f.kind == DROP then Some(Emits([]))
    else if f.kind == SCRIPT then Some(Handled(f.payload))
    else if f.kind == EXPAND && InRange(slice, units) then Some(Folds(At(slice, units)))
    else None
  }

  /** The entry is one word, and reads as all of the meaning; the bit says whether there is a form. */
  predicate Means(entry: nat, ch: CodePoint, units: seq<Unit>, m: Meaning) {
    entry < 0x1_0000_0000 &&
    Read(entry, ch, units) == Some(m.output) &&
    Unpack(entry).script == m.script &&
    Unpack(entry).decomp == if m.form.Some? then 1 else 0
  }

  /** An entry that can be read keeps its reading while the pool grows. */
  lemma ReadIsStable(entry: nat, ch: CodePoint, units: seq<Unit>, more: seq<Unit>)
    requires Read(entry, ch, units).Some? && units <= more
    ensures Read(entry, ch, more) == Read(entry, ch, units)
  {
    var f := Unpack(entry);
    var slice := Slice(f.payload, f.length);
    if InRange(slice, units) {
      AtIsStable(slice, units, more);
    }
  }

  /** No entry can hold this: a handler payload or a string length over its field. */
  predicate TooBig(output: Output) {
    if output.Handled? then output.payload >= PAYLOAD_LIMIT else |output.units| > MAX_LEN
  }

  /** There is no entry only for want of room. */
  predicate Gives(entry: Option<nat>, ch: CodePoint, units: seq<Unit>, m: Meaning) {
    match entry
    case Some(e) => Means(e, ch, units, m) && !TooBig(m.output)
    case None => TooBig(m.output) || |units| >= PAYLOAD_LIMIT
  }

  lemma KeepGives(script: nat, form: Option<Text>, ch: CodePoint, units: seq<Unit>)
    requires script < 32
    ensures Gives(Pack(KEEP, script, 0, 0, form.Some?), ch, units, Meaning(Emits(UnitsOf(ch)), script, form))
  {
    PackRoundTrip(KEEP, script, 0, 0, form.Some?);
  }

  lemma CharReads(script: nat, unit: Unit, hasForm: bool, ch: CodePoint, units: seq<Unit>)
    ensures ReadFields(Fields(CHAR, script, if hasForm then 1 else 0, 0, unit), ch, units) == Some(Emits([unit]))
  {
  }

  lemma CharGives(script: nat, unit: Unit, form: Option<Text>, ch: CodePoint, units: seq<Unit>)
    requires script < 32
    ensures Gives(Pack(CHAR, script, unit, 0, form.Some?), ch, units, Meaning(Emits([unit]), script, form))
  {
    PackRoundTrip(CHAR, script, unit, 0, form.Some?);
    CharReads(script, unit, form.Some?, ch, units);
  }

  lemma DropGives(script: nat, form: Option<Text>, ch: CodePoint, units: seq<Unit>)
    requires script < 32
    ensures Gives(Pack(DROP, script, 0, 0, form.Some?), ch, units, Meaning(Emits([]), script, form))
  {
    PackRoundTrip(DROP, script, 0, 0, form.Some?);
  }

  lemma HandlerGives(h: Handler, ch: CodePoint, units: seq<Unit>)
    requires h.script < 32
    ensures Gives(HandlerEntry(h), ch, units, HandlerMeaning(h))
  {
    PackRoundTrip(SCRIPT, h.script, h.payload, 0, h.form.Some?);
  }

  lemma PoolGives(script: nat, slice: Slice, form: Option<Text>, ch: CodePoint, units: seq<Unit>)
    requires script < 32 && InRange(slice, units)
    ensures Gives(Pack(POOL, script, slice.offset, slice.length, form.Some?), ch, units,
                  Meaning(Emits(At(slice, units)), script, form))
  {
    PackRoundTrip(POOL, script, slice.offset, slice.length, form.Some?);
  }

  lemma ExpandGives(slice: Slice, ch: CodePoint, units: seq<Unit>)
    requires InRange(slice, units)
    ensures Gives(Pack(EXPAND, NONE, slice.offset, slice.length, false), ch, units,
                  Meaning(Folds(At(slice, units)), NONE, None))
  {
    PackRoundTrip(EXPAND, NONE, slice.offset, slice.length, false);
  }

  lemma SingleUnit(text: Text)
    requires |text| == 1
    ensures Encode(text) == UnitsOf(text[0])
  {
    assert Encode(text[1..]) == [];
  }

  lemma StandsForItself(text: Text, ch: CodePoint)
    requires !IsSurrogate(ch)
    ensures Encode(text) == UnitsOf(ch) <==> text == [ch]
  {
    SingleUnit([ch]);
    if Encode(text) == UnitsOf(ch) {
      EncodeIsInjective(text, [ch]);
    }
  }

  /** The entry of a character below 0x80. */
  function AsciiEntry(c: Character): (entry: Option<nat>)
    requires c.ch < 0x80
  {
    if c.dropped then Pack(DROP, NONE, 0, 0, false)
    else if 'A' as nat <= c.ch <= 'Z' as nat then Pack(CHAR, LATIN, c.ch + 32, 0, false)
    else Pack(KEEP, if c.alpha then LATIN else NONE, 0, 0, false)
  }

  lemma AsciiGives(c: Character, units: seq<Unit>)
    requires c.ch < 0x80
    ensures Gives(AsciiEntry(c), c.ch, units, AsciiWanted(c))
  {
    if c.dropped {
      DropGives(NONE, None, c.ch, units);
    } else if 'A' as nat <= c.ch <= 'Z' as nat {
      CharGives(LATIN, c.ch + 32, None, c.ch, units);
    } else {
      KeepGives(if c.alpha then LATIN else NONE, None, c.ch, units);
    }
  }

  /** The entry for a character and the form beside it: reading the entry gives what the character wants. */
  method EntryFor(pool: Pool, c: Character) returns (entry: Option<nat>, form: Option<Text>)
    requires pool.Valid() && c.Valid()
    modifies pool
    ensures pool.Valid() && old(pool.units) <= pool.units
    ensures Gives(entry, c.ch, pool.units, Wanted(c)) && form == Wanted(c).form
    ensures entry.Some? && c.ch >= 0x10000 && Wanted(c).output == Emits(UnitsOf(c.ch)) ==> Unpack(entry.value).kind == KEEP
  {
    form := None;
    if IsSurrogate(c.ch) {
      entry := Pack(KEEP, NONE, 0, 0, false);
      KeepGives(NONE, None, c.ch, pool.units);
    } else if c.ch < 0x80 {
      entry := AsciiEntry(c);
      AsciiGives(c, pool.units);
    } else if c.handler.Some? {
      entry, form := HandlerEntry(c.handler.value), c.handler.value.form;
      HandlerGives(c.handler.value, c.ch, pool.units);
    } else if |c.nfkc| == 1 && c.nfkc != [c.ch] && c.nfkcHandler.Some? {
      entry, form := HandlerEntry(c.nfkcHandler.value), c.nfkcHandler.value.form;
      HandlerGives(c.nfkcHandler.value, c.ch, pool.units);
    } else if c.text.None? {
      var slice := pool.Add(c.nfkc);
      entry := Pack(EXPAND, NONE, slice.offset, slice.length, false);
      ExpandGives(slice, c.ch, pool.units);
    } else {
      if HasForms(c.script) && c.candidate != [c.ch] {
        form := Some(c.candidate);
      }
      entry := TextEntry(pool, c, c.text.value, form);
    }
  }

  function HandlerEntry(h: Handler): Option<nat> {
    Pack(SCRIPT, h.script, h.payload, 0, h.form.Some?)
  }

  method TextEntry(pool: Pool, c: Character, text: Text, form: Option<Text>) returns (entry: Option<nat>)
    requires pool.Valid() && c.Valid() && !IsSurrogate(c.ch)
    modifies pool
    ensures pool.Valid() && old(pool.units) <= pool.units
    ensures Gives(entry, c.ch, pool.units, Meaning(Emits(Encode(text)), c.script, form))
    ensures entry.Some? && c.ch >= 0x10000 && Encode(text) == UnitsOf(c.ch) ==> Unpack(entry.value).kind == KEEP
  {
    if |text| == 1 {
      SingleUnit(text);
    }
    StandsForItself(text, c.ch);
    if text == [c.ch] {
      entry := Pack(KEEP, c.script, 0, 0, form.Some?);
      KeepGives(c.script, form, c.ch, pool.units);
      PackRoundTrip(KEEP, c.script, 0, 0, form.Some?);
    } else if text == [] {
      entry := Pack(DROP, c.script, 0, 0, form.Some?);
      DropGives(c.script, form, c.ch, pool.units);
    } else if |text| == 1 && text[0] < 0x10000 {
      entry := Pack(CHAR, c.script, text[0], 0, form.Some?);
      CharGives(c.script, text[0], form, c.ch, pool.units);
    } else {
      var slice := pool.Add(text);
      entry := Pack(POOL, c.script, slice.offset, slice.length, form.Some?);
      PoolGives(c.script, slice, form, c.ch, pool.units);
    }
  }

  /** A character's text comes back from what its entry emits. */
  lemma EmittedTextDecodes(c: Character, entry: nat, units: seq<Unit>)
    requires c.ch >= 0x80 && !IsSurrogate(c.ch) && c.handler.None? && c.nfkcHandler.None?
    requires Means(entry, c.ch, units, Wanted(c))
    ensures c.text.Some? ==> Read(entry, c.ch, units) == Some(Emits(Encode(c.text.value)))
    ensures Decode(Read(entry, c.ch, units).value.units) == Some(if c.text.Some? then c.text.value else c.nfkc)
  {
    DecodeEncode(if c.text.Some? then c.text.value else c.nfkc);
  }
}
