/**
 * The body of the replacement `JSON.parse` that the preload script installs
 * in the page (preload.js, lines 293-330), written as an explicit wrapper:
 * it receives what the original parser produced and the selection that was
 * embedded in the page, and returns what the replacement returns, or the
 * error it throws.
 */
module SkinInjection {
  import opened Wrappers
  import opened Json

  /** A `[weapon, skinName]` pair of `Object.entries(selectedSkins)`. */
  type Entry = (string, Json)

  /** The two arrays of player data that injection changes. */
  datatype Inventory = Inventory(skins: seq<Json>, equipped: seq<Json>)

  predicate IsArray(m: Option<Json>) {
    m.Some? && m.value.Arr?
  }

  /** The structural signature of player data. */
  predicate IsPlayerData(v: Json) {
    && Truthy(v)
    && IsArray(Member(v, "skins"))
    && IsArray(Member(v, "equippedSkins"))
    && Member(v, "username").Some? && Member(v, "username").value.Str?
  }

  /** `!skinName || skinName === 'default'`: the pair is passed over. */
  predicate Skipped(skin: Json) {
    !Truthy(skin) || skin == Str("default")
  }

  /** `s.weapon === weapon`. */
  predicate ForWeapon(s: Json, weapon: string) {
    StrictEq(Member(s, "weapon"), Str(weapon))
  }

  /** `s.name === skinName && s.weapon === weapon`. */
  predicate SameSkin(s: Json, name: Json, weapon: string) {
    StrictEq(Member(s, "name"), name) && ForWeapon(s, weapon)
  }

  /** Reading a property of a `null` element throws a TypeError. */
  predicate NullFree(items: seq<Json>) {
    Null !in items
  }

  /** The record `{ name: skinName, weapon, wear: 0 }`. */
  function SkinRecord(name: Json, weapon: string): Json {
    Obj([("name", name), ("weapon", Str(weapon)), ("wear", Num(0.0))])
  }

  /** The record holds its weapon, and matches its own name only when that name is a primitive. */
  lemma SkinRecordMatches(name: Json, weapon: string)
    ensures ForWeapon(SkinRecord(name, weapon), weapon)
    ensures SameSkin(SkinRecord(name, weapon), name, weapon) <==> Primitive(name)
  {
    var members := SkinRecord(name, weapon).members;
    assert members[1..] == [("weapon", Str(weapon)), ("wear", Num(0.0))];
    assert "name"[0] != "weapon"[0];
    assert Lookup(members[1..], "weapon") == Some(Str(weapon));
  }

  /** `items.some(s => s.name === name && s.weapon === weapon)`. */
  function Owned(items: seq<Json>, name: Json, weapon: string): Result<bool, Error> {
    if items == [] then Ok(false)
    else if items[0] == Null then Err(TypeError)
    else if SameSkin(items[0], name, weapon) then Ok(true)
    else Owned(items[1..], name, weapon)
  }

  /**
   * `some` stops at the first match and throws only on a `null` it reaches
   * before one; when it returns, it says whether a match exists.
   */
  lemma {:induction false} OwnedSpec(items: seq<Json>, name: Json, weapon: string)
    ensures Owned(items, name, weapon).Ok? ==>
      (Owned(items, name, weapon).value <==> exists i :: 0 <= i < |items| && SameSkin(items[i], name, weapon))
    ensures NullFree(items) ==> Owned(items, name, weapon).Ok?
    ensures Owned(items, name, weapon).Err? ==> !NullFree(items)
    ensures Owned(items, name, weapon) == Ok(false) ==> NullFree(items)
  {
    if items != [] && items[0] != Null && !SameSkin(items[0], name, weapon) {
      OwnedSpec(items[1..], name, weapon);
      assert forall i :: 1 <= i < |items| ==> items[i] == items[1..][i - 1];
    }
  }

  /** Index `i` is the first of `items` that holds `weapon`. */
  predicate IsFirstFor(items: seq<Json>, weapon: string, i: int) {
    && 0 <= i < |items|
    && ForWeapon(items[i], weapon)
    && forall j :: 0 <= j < i ==> !ForWeapon(items[j], weapon)
  }

  /** `items.findIndex(s => s.weapon === weapon)`, -1 when there is none. */
  function FindWeapon(items: seq<Json>, weapon: string): (r: Result<int, Error>)
    ensures r.Ok? ==> -1 <= r.value < |items|
  {
    if items == [] then Ok(-1)
    else if items[0] == Null then Err(TypeError)
    else if ForWeapon(items[0], weapon) then Ok(0)
    else
      var j :- FindWeapon(items[1..], weapon);
      Ok(if j == -1 then -1 else j + 1)
  }

  /** `findIndex` gives the first index holding the weapon, or -1 when no index does. */
  lemma {:induction false} FindWeaponSpec(items: seq<Json>, weapon: string)
    ensures var r := FindWeapon(items, weapon);
      && (r.Ok? && r.value != -1 ==> IsFirstFor(items, weapon, r.value))
      && (r == Ok(-1) ==> forall i :: 0 <= i < |items| ==> !ForWeapon(items[i], weapon))
      && (r == Ok(-1) ==> NullFree(items))
      && (NullFree(items) ==> r.Ok?)
      && (r.Err? ==> !NullFree(items))
  {
    if items != [] && items[0] != Null && !ForWeapon(items[0], weapon) {
      FindWeaponSpec(items[1..], weapon);
      assert forall i :: 1 <= i < |items| ==> items[i] == items[1..][i - 1];
    }
  }

  /** One turn of the `for` loop (preload.js, lines 307-323). */
  function Step(inv: Inventory, entry: Entry): (r: Result<Inventory, Error>)
    ensures Skipped(entry.1) ==> r == Ok(inv)
  {
    var (weapon, skin) := entry;
    if Skipped(skin) then Ok(inv)
    else
      var rec := SkinRecord(skin, weapon);
      var owned :- Owned(inv.skins, skin, weapon);
      var skins := if owned then inv.skins else inv.skins + [rec];
      var idx :- FindWeapon(inv.equipped, weapon);
      var equipped := if idx != -1 then inv.equipped[idx := rec] else inv.equipped + [rec];
      Ok(Inventory(skins, equipped))
  }

  /**
   * A pair that is not passed over appends its record to `skins` exactly
   * when no element has the same name and weapon, and puts it in
   * `equippedSkins` at the first index holding that weapon, or at the end.
   */
  lemma StepSpec(inv: Inventory, entry: Entry)
    requires Step(inv, entry).Ok? && !Skipped(entry.1)
    ensures
      var r := Step(inv, entry).value;
      var rec := SkinRecord(entry.1, entry.0);
      && (if exists i :: 0 <= i < |inv.skins| && SameSkin(inv.skins[i], entry.1, entry.0)
          then r.skins == inv.skins
          else r.skins == inv.skins + [rec])
      && (if exists i :: 0 <= i < |inv.equipped| && ForWeapon(inv.equipped[i], entry.0)
          then exists i :: IsFirstFor(inv.equipped, entry.0, i) && r.equipped == inv.equipped[i := rec]
          else r.equipped == inv.equipped + [rec])
  {
    OwnedSpec(inv.skins, entry.1, entry.0);
    FindWeaponSpec(inv.equipped, entry.0);
    SkinRecordMatches(entry.1, entry.0);
    var idx := FindWeapon(inv.equipped, entry.0).value;
    if idx != -1 {
      assert IsFirstFor(inv.equipped, entry.0, idx);
    }
  }

  /** A step throws only when one of the arrays holds a `null`, and adds no `null` itself. */
  lemma StepNulls(inv: Inventory, entry: Entry)
    ensures NullFree(inv.skins) && NullFree(inv.equipped) ==> Step(inv, entry).Ok?
    ensures Step(inv, entry).Err? ==> !NullFree(inv.skins) || !NullFree(inv.equipped)
    ensures Step(inv, entry).Ok? && NullFree(inv.skins) ==> NullFree(Step(inv, entry).value.skins)
    ensures Step(inv, entry).Ok? && NullFree(inv.equipped) ==> NullFree(Step(inv, entry).value.equipped)
  {
    OwnedSpec(inv.skins, entry.1, entry.0);
    FindWeaponSpec(inv.equipped, entry.0);
  }

  /** The whole `for` loop over the pairs, in order; the first error ends it. */
  function InjectAll(inv: Inventory, entries: seq<Entry>): Result<Inventory, Error>
    decreases |entries|
  {
    if entries == [] then Ok(inv)
    else
      var next :- Step(inv, entries[0]);
      InjectAll(next, entries[1..])
  }

  lemma InjectAllUnfold(inv: Inventory, entries: seq<Entry>)
    requires entries != []
    ensures Step(inv, entries[0]).Err? ==> InjectAll(inv, entries) == Err(TypeError)
    ensures Step(inv, entries[0]).Ok? ==> InjectAll(inv, entries) == InjectAll(Step(inv, entries[0]).value, entries[1..])
  {
    var s := Step(inv, entries[0]);
    if s.Err? {
      assert s.error == TypeError;
    }
  }

  /** The pairs that are not passed over, in order. */
  function Active(entries: seq<Entry>): (r: seq<Entry>)
    ensures |r| <= |entries|
  {
    if entries == [] then []
    else (if Skipped(entries[0].1) then [] else [entries[0]]) + Active(entries[1..])
  }

  /** `Object.entries` never repeats a key. */
  predicate DistinctWeapons(entries: seq<Entry>) {
    forall i, j :: 0 <= i < j < |entries| ==> entries[i].0 != entries[j].0
  }

  /** `items` holds `rec` at the first index that holds `weapon`. */
  predicate Equipped(items: seq<Json>, weapon: string, rec: Json) {
    exists i :: 0 <= i < |items| && IsFirstFor(items, weapon, i) && items[i] == rec
  }

  lemma ShiftEntries(entries: seq<Entry>)
    requires entries != []
    ensures forall j :: 1 <= j < |entries| ==> entries[j] == entries[1..][j - 1]
  {
  }

  /** A mapping whose every skin is empty or "default" changes neither array. */
  lemma {:induction false} SkippedPairsChangeNothing(inv: Inventory, entries: seq<Entry>)
    requires forall j :: 0 <= j < |entries| ==> Skipped(entries[j].1)
    ensures InjectAll(inv, entries) == Ok(inv)
    decreases |entries|
  {
    if entries != [] {
      ShiftEntries(entries);
      SkippedPairsChangeNothing(inv, entries[1..]);
    }
  }

  /** Dropping the skipped pairs from the mapping does not change the outcome. */
  lemma {:induction false} OnlyActivePairsMatter(inv: Inventory, entries: seq<Entry>)
    ensures InjectAll(inv, entries) == InjectAll(inv, Active(entries))
    decreases |entries|
  {
    if entries != [] {
      var next := Step(inv, entries[0]);
      InjectAllUnfold(inv, entries);
      if Skipped(entries[0].1) {
        assert Active(entries) == Active(entries[1..]);
        OnlyActivePairsMatter(inv, entries[1..]);
      } else {
        var act := Active(entries);
        assert act == [entries[0]] + Active(entries[1..]);
        assert act[0] == entries[0] && act[1..] == Active(entries[1..]);
        if next.Ok? {
          OnlyActivePairsMatter(next.value, entries[1..]);
        } else {
          InjectAllUnfold(inv, entries);
          InjectAllUnfold(inv, act);
        }
      }
    }
  }

  /** With no `null` in either array, injection never throws. */
  lemma {:induction false} InjectAllTotal(inv: Inventory, entries: seq<Entry>)
    requires NullFree(inv.skins) && NullFree(inv.equipped)
    ensures InjectAll(inv, entries).Ok?
    ensures NullFree(InjectAll(inv, entries).value.skins) && NullFree(InjectAll(inv, entries).value.equipped)
    decreases |entries|
  {
    if entries != [] {
      StepNulls(inv, entries[0]);
      InjectAllTotal(Step(inv, entries[0]).value, entries[1..]);
    }
  }

  /**
   * `skins` only grows: its old elements keep their places, and it grows by
   * at most one per pair not passed over.
   */
  lemma {:induction false} SkinsGrow(inv: Inventory, entries: seq<Entry>)
    requires InjectAll(inv, entries).Ok?
    ensures var out := InjectAll(inv, entries).value;
      && |inv.skins| <= |out.skins| <= |inv.skins| + |Active(entries)|
      && out.skins[..|inv.skins|] == inv.skins
    decreases |entries|
  {
    if entries != [] {
      var next := Step(inv, entries[0]).value;
      var out := InjectAll(inv, entries).value;
      SkinsGrow(next, entries[1..]);
      if !Skipped(entries[0].1) {
        StepSpec(inv, entries[0]);
        assert Active(entries) == [entries[0]] + Active(entries[1..]);
      }
      assert out.skins[..|inv.skins|] == out.skins[..|next.skins|][..|inv.skins|];
    }
  }

  /**
   * The element at index `k` of `skins` is the record of the pair `entries[j]`,
   * not passed over, and no element before it has that name and weapon.
   */
  ghost predicate RecordOfPair(skins: seq<Json>, k: int, entries: seq<Entry>, j: int)
    requires 0 <= k < |skins|
  {
    && 0 <= j < |entries| && !Skipped(entries[j].1)
    && skins[k] == SkinRecord(entries[j].1, entries[j].0)
    && forall m :: 0 <= m < k ==> !SameSkin(skins[m], entries[j].1, entries[j].0)
  }

  /** The element at index `k` of `skins` is the record of one of the pairs. */
  ghost predicate RecordOfSomePair(skins: seq<Json>, k: int, entries: seq<Entry>)
    requires 0 <= k < |skins|
  {
    exists j :: RecordOfPair(skins, k, entries, j)
  }

  /** Each element injection appends to `skins` is the record of some pair not yet owned. */
  lemma {:induction false} SkinsAppended(inv: Inventory, entries: seq<Entry>)
    requires InjectAll(inv, entries).Ok?
    ensures var out := InjectAll(inv, entries).value;
      forall k :: |inv.skins| <= k < |out.skins| ==> RecordOfSomePair(out.skins, k, entries)
    decreases |entries|
  {
    if entries != [] {
      var next := Step(inv, entries[0]).value;
      var out := InjectAll(inv, entries).value;
      assert out == InjectAll(next, entries[1..]).value;
      SkinsGrow(next, entries[1..]);
      SkinsAppended(next, entries[1..]);
      forall k | |next.skins| <= k < |out.skins|
        ensures RecordOfSomePair(out.skins, k, entries)
      {
        assert RecordOfSomePair(out.skins, k, entries[1..]);
        RecordOfLaterPair(out.skins, k, entries);
      }
      if !Skipped(entries[0].1) {
        StepSpec(inv, entries[0]);
        if |inv.skins| < |next.skins| {
          NewHeadRecord(inv, next, out, entries);
        }
      }
    }
  }

  /** A record of a pair of `entries[1..]` is a record of a pair of `entries`. */
  lemma RecordOfLaterPair(skins: seq<Json>, k: int, entries: seq<Entry>)
    requires entries != [] && 0 <= k < |skins| && RecordOfSomePair(skins, k, entries[1..])
    ensures RecordOfSomePair(skins, k, entries)
  {
    var j :| RecordOfPair(skins, k, entries[1..], j);
    assert entries[j + 1] == entries[1..][j];
    assert RecordOfPair(skins, k, entries, j + 1);
  }

  /** The record the first pair appends is the element at the old length. */
  lemma NewHeadRecord(inv: Inventory, next: Inventory, out: Inventory, entries: seq<Entry>)
    requires entries != [] && !Skipped(entries[0].1)
    requires next.skins == inv.skins + [SkinRecord(entries[0].1, entries[0].0)]
    requires forall m :: 0 <= m < |inv.skins| ==> !SameSkin(inv.skins[m], entries[0].1, entries[0].0)
    requires |next.skins| <= |out.skins| && out.skins[..|next.skins|] == next.skins
    ensures RecordOfSomePair(out.skins, |inv.skins|, entries)
  {
    var k := |inv.skins|;
    assert out.skins[k] == next.skins[k];
    forall m | 0 <= m < k
      ensures !SameSkin(out.skins[m], entries[0].1, entries[0].0)
    {
      assert out.skins[m] == next.skins[m] == inv.skins[m];
    }
    assert RecordOfPair(out.skins, k, entries, 0);
  }

  /** Injection keeps the weapon of every index of `equippedSkins`. */
  lemma {:induction false} WeaponsKept(inv: Inventory, entries: seq<Entry>)
    requires InjectAll(inv, entries).Ok?
    ensures var out := InjectAll(inv, entries).value;
      && |inv.equipped| <= |out.equipped| <= |inv.equipped| + |Active(entries)|
      && forall i :: 0 <= i < |inv.equipped| ==>
           Member(out.equipped[i], "weapon") == Member(inv.equipped[i], "weapon")
    decreases |entries|
  {
    if entries != [] {
      var next := Step(inv, entries[0]).value;
      WeaponsKept(next, entries[1..]);
      if !Skipped(entries[0].1) {
        StepSpec(inv, entries[0]);
        SkinRecordMatches(entries[0].1, entries[0].0);
        assert Active(entries) == [entries[0]] + Active(entries[1..]);
      }
    }
  }

  /**
   * The element at index `k` of `equippedSkins` is the record of the pair
   * `entries[j]`, not passed over, and no element before it holds that weapon.
   */
  ghost predicate EquippedRecordOfPair(equipped: seq<Json>, k: int, entries: seq<Entry>, j: int)
    requires 0 <= k < |equipped|
  {
    && 0 <= j < |entries| && !Skipped(entries[j].1)
    && equipped[k] == SkinRecord(entries[j].1, entries[j].0)
    && forall m :: 0 <= m < k ==> !ForWeapon(equipped[m], entries[j].0)
  }

  /** The element at index `k` of `equippedSkins` is the record of one of the pairs. */
  ghost predicate EquippedRecordOfSomePair(equipped: seq<Json>, k: int, entries: seq<Entry>)
    requires 0 <= k < |equipped|
  {
    exists j :: EquippedRecordOfPair(equipped, k, entries, j)
  }

  /** One step either keeps an element or writes its record at the first index for its weapon. */
  lemma StepEquippedOrigin(inv: Inventory, entry: Entry)
    requires Step(inv, entry).Ok?
    ensures var next := Step(inv, entry).value;
      forall k :: 0 <= k < |next.equipped| ==>
        (k < |inv.equipped| && next.equipped[k] == inv.equipped[k]) ||
        (&& !Skipped(entry.1) && next.equipped[k] == SkinRecord(entry.1, entry.0)
         && forall m :: 0 <= m < k ==> !ForWeapon(next.equipped[m], entry.0))
  {
    if !Skipped(entry.1) {
      StepSpec(inv, entry);
    }
  }

  /**
   * Every element of `equippedSkins` after injection is either the old
   * element at that index or the record of a pair not passed over, at an
   * index before which no element holds that pair's weapon. In particular
   * every element injection appends is such a record: the `push` when
   * `findIndex` returns -1.
   */
  lemma {:induction false} EquippedAppended(inv: Inventory, entries: seq<Entry>)
    requires InjectAll(inv, entries).Ok?
    ensures var out := InjectAll(inv, entries).value;
      forall k :: 0 <= k < |out.equipped| ==>
        (k < |inv.equipped| && out.equipped[k] == inv.equipped[k]) || EquippedRecordOfSomePair(out.equipped, k, entries)
    ensures var out := InjectAll(inv, entries).value;
      forall k :: |inv.equipped| <= k < |out.equipped| ==> EquippedRecordOfSomePair(out.equipped, k, entries)
    decreases |entries|
  {
    if entries != [] {
      ShiftEntries(entries);
      var next := Step(inv, entries[0]).value;
      var out := InjectAll(inv, entries).value;
      assert out == InjectAll(next, entries[1..]).value;
      EquippedAppended(next, entries[1..]);
      WeaponsKept(next, entries[1..]);
      StepEquippedOrigin(inv, entries[0]);
      forall k | 0 <= k < |out.equipped| && !(k < |inv.equipped| && out.equipped[k] == inv.equipped[k])
        ensures EquippedRecordOfSomePair(out.equipped, k, entries)
      {
        if k < |next.equipped| && out.equipped[k] == next.equipped[k] {
          forall m | 0 <= m < k
            ensures !ForWeapon(out.equipped[m], entries[0].0)
          {
            assert Member(out.equipped[m], "weapon") == Member(next.equipped[m], "weapon");
          }
          assert EquippedRecordOfPair(out.equipped, k, entries, 0);
        } else {
          var j :| EquippedRecordOfPair(out.equipped, k, entries[1..], j);
          assert EquippedRecordOfPair(out.equipped, k, entries, j + 1);
        }
      }
    }
  }

  /** The first index holding a weapon is still the first one after injection. */
  lemma FirstIndexKept(inv: Inventory, entries: seq<Entry>, weapon: string, i: int)
    requires InjectAll(inv, entries).Ok?
    requires IsFirstFor(inv.equipped, weapon, i)
    ensures IsFirstFor(InjectAll(inv, entries).value.equipped, weapon, i)
  {
    WeaponsKept(inv, entries);
  }

  /**
   * The only indices of `equippedSkins` that injection changes are, for a
   * pair not passed over, the first index that held its weapon.
   */
  lemma {:induction false} OnlyFirstIndicesChange(inv: Inventory, entries: seq<Entry>)
    requires InjectAll(inv, entries).Ok?
    ensures var out := InjectAll(inv, entries).value;
      |inv.equipped| <= |out.equipped| &&
      forall i :: 0 <= i < |inv.equipped| && out.equipped[i] != inv.equipped[i] ==>
        exists j :: 0 <= j < |entries| && !Skipped(entries[j].1) && IsFirstFor(inv.equipped, entries[j].0, i)
    decreases |entries|
  {
    if entries != [] {
      ShiftEntries(entries);
      var next := Step(inv, entries[0]).value;
      var out := InjectAll(inv, entries).value;
      OnlyFirstIndicesChange(next, entries[1..]);
      WeaponsKept(inv, entries);
      WeaponsKept(inv, [entries[0]]);
      assert InjectAll(next, []) == Ok(next);
      assert InjectAll(inv, [entries[0]]) == Ok(next);
      if !Skipped(entries[0].1) {
        StepSpec(inv, entries[0]);
      }
      forall i | 0 <= i < |inv.equipped| && out.equipped[i] != inv.equipped[i]
        ensures exists j :: 0 <= j < |entries| && !Skipped(entries[j].1) && IsFirstFor(inv.equipped, entries[j].0, i)
      {
        if next.equipped[i] != inv.equipped[i] {
          assert !Skipped(entries[0].1) && IsFirstFor(inv.equipped, entries[0].0, i);
        } else {
          var j :| 0 <= j < |entries[1..]| && !Skipped(entries[1..][j].1) && IsFirstFor(next.equipped, entries[1..][j].0, i);
          assert IsFirstFor(inv.equipped, entries[j + 1].0, i);
        }
      }
    }
  }

  lemma FirstForUnique(items: seq<Json>, weapon: string, i: int, k: int)
    requires IsFirstFor(items, weapon, i) && IsFirstFor(items, weapon, k)
    ensures i == k
  {
  }

  /** After a step for a pair not passed over, its record is equipped for its weapon. */
  lemma StepEquips(inv: Inventory, entry: Entry)
    requires Step(inv, entry).Ok? && !Skipped(entry.1)
    ensures Equipped(Step(inv, entry).value.equipped, entry.0, SkinRecord(entry.1, entry.0))
  {
    var (w, v) := entry;
    var next := Step(inv, entry).value;
    var rec := SkinRecord(v, w);
    StepSpec(inv, entry);
    SkinRecordMatches(v, w);
    if exists i :: 0 <= i < |inv.equipped| && ForWeapon(inv.equipped[i], w) {
      var i :| IsFirstFor(inv.equipped, w, i) && next.equipped == inv.equipped[i := rec];
      assert IsFirstFor(next.equipped, w, i);
    } else {
      assert IsFirstFor(next.equipped, w, |inv.equipped|);
    }
  }

  /** A record holds one weapon only. */
  lemma ForOneWeapon(s: Json, w1: string, w2: string)
    requires ForWeapon(s, w1) && w1 != w2
    ensures !ForWeapon(s, w2)
  {
  }

  /**
   * After injection, every pair not passed over has its record at the first
   * index of `equippedSkins` that holds its weapon.
   */
  lemma {:induction false} SelectionEquipped(inv: Inventory, entries: seq<Entry>)
    requires DistinctWeapons(entries)
    requires InjectAll(inv, entries).Ok?
    ensures var out := InjectAll(inv, entries).value;
      forall j :: 0 <= j < |entries| && !Skipped(entries[j].1) ==>
        Equipped(out.equipped, entries[j].0, SkinRecord(entries[j].1, entries[j].0))
    decreases |entries|
  {
    if entries != [] {
      ShiftEntries(entries);
      var next := Step(inv, entries[0]).value;
      var out := InjectAll(inv, entries).value;
      assert DistinctWeapons(entries[1..]);
      SelectionEquipped(next, entries[1..]);
      if !Skipped(entries[0].1) {
        var (w, v) := entries[0];
        var rec := SkinRecord(v, w);
        StepEquips(inv, entries[0]);
        var p :| 0 <= p < |next.equipped| && IsFirstFor(next.equipped, w, p) && next.equipped[p] == rec;
        FirstIndexKept(next, entries[1..], w, p);
        OnlyFirstIndicesChange(next, entries[1..]);
        forall j | 0 <= j < |entries[1..]|
          ensures !IsFirstFor(next.equipped, entries[1..][j].0, p)
        {
          assert entries[1..][j].0 == entries[j + 1].0 != w;
          ForOneWeapon(next.equipped[p], w, entries[1..][j].0);
        }
        assert out.equipped[p] == next.equipped[p];
        assert Equipped(out.equipped, w, rec);
      }
    }
  }

  /** Where a selected weapon's record ends up: its old first index, or past the old end. */
  lemma EquippedPosition(inv: Inventory, entries: seq<Entry>, j: int)
    requires DistinctWeapons(entries)
    requires InjectAll(inv, entries).Ok?
    requires 0 <= j < |entries| && !Skipped(entries[j].1)
    ensures var out := InjectAll(inv, entries).value;
      var rec := SkinRecord(entries[j].1, entries[j].0);
      && |inv.equipped| <= |out.equipped|
      && (forall i :: IsFirstFor(inv.equipped, entries[j].0, i) ==> out.equipped[i] == rec)
      && ((forall i :: 0 <= i < |inv.equipped| ==> !ForWeapon(inv.equipped[i], entries[j].0)) ==>
            exists i :: |inv.equipped| <= i < |out.equipped| && IsFirstFor(out.equipped, entries[j].0, i) && out.equipped[i] == rec)
  {
    var out := InjectAll(inv, entries).value;
    var w := entries[j].0;
    var rec := SkinRecord(entries[j].1, w);
    WeaponsKept(inv, entries);
    SelectionEquipped(inv, entries);
    assert Equipped(out.equipped, w, rec);
    var q :| 0 <= q < |out.equipped| && IsFirstFor(out.equipped, w, q) && out.equipped[q] == rec;
    forall i | IsFirstFor(inv.equipped, w, i)
      ensures out.equipped[i] == rec
    {
      FirstIndexKept(inv, entries, w, i);
      FirstForUnique(out.equipped, w, i, q);
    }
    if q < |inv.equipped| {
      assert Member(out.equipped[q], "weapon") == Member(inv.equipped[q], "weapon");
      assert ForWeapon(inv.equipped[q], w);
    }
  }

  /** After injection, each selected skin with a primitive name is in `skins`. */
  lemma {:induction false} SelectionOwned(inv: Inventory, entries: seq<Entry>)
    requires InjectAll(inv, entries).Ok?
    ensures var out := InjectAll(inv, entries).value;
      forall j :: 0 <= j < |entries| && !Skipped(entries[j].1) && Primitive(entries[j].1) ==>
        exists k :: 0 <= k < |out.skins| && SameSkin(out.skins[k], entries[j].1, entries[j].0)
    decreases |entries|
  {
    if entries != [] {
      ShiftEntries(entries);
      var next := Step(inv, entries[0]).value;
      var out := InjectAll(inv, entries).value;
      SelectionOwned(next, entries[1..]);
      SkinsGrow(next, entries[1..]);
      if !Skipped(entries[0].1) && Primitive(entries[0].1) {
        var (w, v) := entries[0];
        StepSpec(inv, entries[0]);
        SkinRecordMatches(v, w);
        var k :| 0 <= k < |next.skins| && SameSkin(next.skins[k], v, w);
        assert out.skins[k] == out.skins[..|next.skins|][k];
      }
    }
  }

  /** No element before index `i` is `null`. */
  predicate NoNullBefore(items: seq<Json>, i: int)
    requires 0 <= i <= |items|
  {
    forall m :: 0 <= m < i ==> items[m] != Null
  }

  /**
   * `findIndex` returns index `i` exactly when `i` is the first index that
   * holds the weapon and no `null` comes before it: a `null` after the match
   * is never reached.
   */
  lemma {:induction false} FindWeaponAt(items: seq<Json>, weapon: string, i: int)
    ensures (FindWeapon(items, weapon) == Ok(i) && i >= 0) <==> (IsFirstFor(items, weapon, i) && NoNullBefore(items, i))
    decreases |items|
  {
    if items != [] && items[0] != Null && !ForWeapon(items[0], weapon) {
      FindWeaponAt(items[1..], weapon, i - 1);
      assert forall m :: 1 <= m < |items| ==> items[m] == items[1..][m - 1];
      if IsFirstFor(items, weapon, i) && NoNullBefore(items, i) {
        assert IsFirstFor(items[1..], weapon, i - 1);
        assert NoNullBefore(items[1..], i - 1);
      }
    } else if items != [] && items[0] == Null && 0 < i <= |items| {
      assert !NoNullBefore(items, i);
    }
  }

  /** `some` that finds a match in `items` finds it in any extension of `items`. */
  lemma {:induction false} OwnedExtend(items: seq<Json>, more: seq<Json>, name: Json, weapon: string)
    requires Owned(items, name, weapon) == Ok(true)
    ensures Owned(items + more, name, weapon) == Ok(true)
    decreases |items|
  {
    assert (items + more)[0] == items[0];
    if !SameSkin(items[0], name, weapon) {
      assert (items + more)[1..] == items[1..] + more;
      OwnedExtend(items[1..], more, name, weapon);
    }
  }

  /** Past a complete scan without a match, `some` finds an appended match. */
  lemma {:induction false} OwnedAppend(items: seq<Json>, rec: Json, name: Json, weapon: string)
    requires Owned(items, name, weapon) == Ok(false) && SameSkin(rec, name, weapon)
    ensures Owned(items + [rec], name, weapon) == Ok(true)
    decreases |items|
  {
    if items != [] {
      assert (items + [rec])[0] == items[0];
      assert (items + [rec])[1..] == items[1..] + [rec];
      OwnedAppend(items[1..], rec, name, weapon);
    } else {
      assert items + [rec] == [rec];
    }
  }

  /** `findIndex` for `weapon` gives an index that holds `rec`. */
  predicate EquipsFound(items: seq<Json>, weapon: string, rec: Json) {
    var f := FindWeapon(items, weapon);
    f.Ok? && 0 <= f.value < |items| && items[f.value] == rec
  }

  /** After a step for a pair not passed over, `some` finds its skin when its name is a primitive. */
  lemma StepOwns(inv: Inventory, entry: Entry)
    requires Step(inv, entry).Ok? && !Skipped(entry.1) && Primitive(entry.1)
    ensures Owned(Step(inv, entry).value.skins, entry.1, entry.0) == Ok(true)
  {
    var (w, v) := entry;
    OwnedSpec(inv.skins, v, w);
    SkinRecordMatches(v, w);
    if Owned(inv.skins, v, w) == Ok(false) {
      OwnedAppend(inv.skins, SkinRecord(v, w), v, w);
    }
  }

  /** After a step for a pair not passed over, `findIndex` finds its record. */
  lemma StepFinds(inv: Inventory, entry: Entry)
    requires Step(inv, entry).Ok? && !Skipped(entry.1)
    ensures EquipsFound(Step(inv, entry).value.equipped, entry.0, SkinRecord(entry.1, entry.0))
  {
    var (w, v) := entry;
    var rec := SkinRecord(v, w);
    var eq := inv.equipped;
    var next := Step(inv, entry).value.equipped;
    FindWeaponSpec(eq, w);
    SkinRecordMatches(v, w);
    var idx := FindWeapon(eq, w).value;
    if idx != -1 {
      FindWeaponAt(eq, w, idx);
      assert next == eq[idx := rec];
      assert IsFirstFor(next, w, idx) && NoNullBefore(next, idx);
      FindWeaponAt(next, w, idx);
    } else {
      assert next == eq + [rec];
      assert IsFirstFor(next, w, |eq|) && NoNullBefore(next, |eq|);
      FindWeaponAt(next, w, |eq|);
    }
  }

  /** A step for another weapon leaves what `findIndex` finds for `weapon` in place. */
  lemma StepKeepsFound(inv: Inventory, entry: Entry, weapon: string, rec: Json)
    requires Step(inv, entry).Ok? && entry.0 != weapon
    requires EquipsFound(inv.equipped, weapon, rec)
    ensures EquipsFound(Step(inv, entry).value.equipped, weapon, rec)
  {
    if !Skipped(entry.1) {
      var (w, v) := entry;
      var r := SkinRecord(v, w);
      var eq := inv.equipped;
      var next := Step(inv, entry).value.equipped;
      var i := FindWeapon(eq, weapon).value;
      FindWeaponAt(eq, weapon, i);
      FindWeaponSpec(eq, w);
      SkinRecordMatches(v, w);
      ForOneWeapon(r, w, weapon);
      var idx := FindWeapon(eq, w).value;
      if idx != -1 {
        ForOneWeapon(eq[idx], w, weapon);
        assert idx != i;
        assert next == eq[idx := r];
      } else {
        assert next == eq + [r];
      }
      assert next[i] == rec;
      forall m | 0 <= m < i
        ensures next[m] != Null && !ForWeapon(next[m], weapon)
      {
        assert next[m] == eq[m] || next[m] == r;
      }
      assert IsFirstFor(next, weapon, i) && NoNullBefore(next, i);
      FindWeaponAt(next, weapon, i);
    }
  }

  /** Pairs for other weapons leave what `findIndex` finds for `weapon` in place. */
  lemma {:induction false} FoundKept(inv: Inventory, entries: seq<Entry>, weapon: string, rec: Json)
    requires InjectAll(inv, entries).Ok?
    requires forall j :: 0 <= j < |entries| ==> entries[j].0 != weapon
    requires EquipsFound(inv.equipped, weapon, rec)
    ensures EquipsFound(InjectAll(inv, entries).value.equipped, weapon, rec)
    decreases |entries|
  {
    if entries != [] {
      ShiftEntries(entries);
      StepKeepsFound(inv, entries[0], weapon, rec);
      FoundKept(Step(inv, entries[0]).value, entries[1..], weapon, rec);
    }
  }

  /**
   * After a run that succeeds, `some` finds every selected skin with a
   * primitive name and `findIndex` finds every selected record.
   */
  lemma {:induction false} SelectionFound(inv: Inventory, entries: seq<Entry>)
    requires DistinctWeapons(entries)
    requires InjectAll(inv, entries).Ok?
    ensures var out := InjectAll(inv, entries).value;
      forall j :: 0 <= j < |entries| && !Skipped(entries[j].1) ==>
        && (Primitive(entries[j].1) ==> Owned(out.skins, entries[j].1, entries[j].0) == Ok(true))
        && EquipsFound(out.equipped, entries[j].0, SkinRecord(entries[j].1, entries[j].0))
    decreases |entries|
  {
    if entries != [] {
      ShiftEntries(entries);
      var next := Step(inv, entries[0]).value;
      var out := InjectAll(inv, entries).value;
      assert DistinctWeapons(entries[1..]);
      SelectionFound(next, entries[1..]);
      if !Skipped(entries[0].1) {
        var (w, v) := entries[0];
        SkinsGrow(next, entries[1..]);
        if Primitive(v) {
          StepOwns(inv, entries[0]);
          OwnedExtend(next.skins, out.skins[|next.skins|..], v, w);
          assert next.skins + out.skins[|next.skins|..] == out.skins;
        }
        StepFinds(inv, entries[0]);
        assert forall j :: 0 <= j < |entries[1..]| ==> entries[1..][j].0 != w;
        FoundKept(next, entries[1..], w, SkinRecord(v, w));
      }
    }
  }

  /** A state in which `some` and `findIndex` already find every selected record is left as it is. */
  lemma {:induction false} InjectFixedPoint(inv: Inventory, entries: seq<Entry>)
    requires forall j :: 0 <= j < |entries| && !Skipped(entries[j].1) ==>
      && Owned(inv.skins, entries[j].1, entries[j].0) == Ok(true)
      && EquipsFound(inv.equipped, entries[j].0, SkinRecord(entries[j].1, entries[j].0))
    ensures InjectAll(inv, entries) == Ok(inv)
    decreases |entries|
  {
    if entries != [] {
      ShiftEntries(entries);
      if !Skipped(entries[0].1) {
        var (w, v) := entries[0];
        var idx := FindWeapon(inv.equipped, w).value;
        assert inv.equipped[idx := SkinRecord(v, w)] == inv.equipped;
        assert Step(inv, entries[0]) == Ok(inv);
      }
      InjectFixedPoint(inv, entries[1..]);
    }
  }

  /** A `null` after the matches is never reached: such a state is a fixed point too. */
  lemma NullAfterMatchExample()
    ensures var rec := SkinRecord(Str("ice"), "ar");
      var inv := Inventory([rec, Null], [rec, Null]);
      InjectAll(inv, [("ar", Str("ice"))]) == Ok(inv)
  {
    var rec := SkinRecord(Str("ice"), "ar");
    var inv := Inventory([rec, Null], [rec, Null]);
    SkinRecordMatches(Str("ice"), "ar");
    assert Owned(inv.skins, Str("ice"), "ar") == Ok(true);
    assert FindWeapon(inv.equipped, "ar") == Ok(0);
    InjectFixedPoint(inv, [("ar", Str("ice"))]);
  }

  /**
   * Injection is idempotent: running it again over the output of a run that
   * succeeded changes neither array, so parsing the same payload twice adds
   * no duplicates.
   */
  lemma InjectAllIdempotent(inv: Inventory, entries: seq<Entry>)
    requires DistinctWeapons(entries)
    requires forall j :: 0 <= j < |entries| && !Skipped(entries[j].1) ==> Primitive(entries[j].1)
    requires InjectAll(inv, entries).Ok?
    ensures InjectAll(InjectAll(inv, entries).value, entries) == InjectAll(inv, entries)
  {
    SelectionFound(inv, entries);
    InjectFixedPoint(InjectAll(inv, entries).value, entries);
  }

  /** The decimal text of an array index, as `Object.entries` gives it. */
  function IndexKey(n: nat): (r: string)
    ensures r != []
    decreases n
  {
    var d := "0123456789"[n % 10];
    if n < 10 then [d] else IndexKey(n / 10) + [d]
  }

  /**
   * `Object.entries(selectedSkins)`: the members of an object, the elements
   * of an array or the characters of a string under their indices; no pairs
   * for a boolean or a number, and a TypeError for `null`.
   */
  function Entries(selection: Json): (r: Result<seq<Entry>, Error>)
    ensures r.Err? <==> selection == Null
    ensures selection.Obj? ==> r == Ok(selection.members)
  {
    match selection
    case Null => Err(TypeError)
    case Bool(_) => Ok([])
    case Num(_) => Ok([])
    case Str(s) => Ok(seq(|s|, i requires 0 <= i < |s| => (IndexKey(i), Str([s[i]]))))
    case Arr(a) => Ok(seq(|a|, i requires 0 <= i < |a| => (IndexKey(i), a[i])))
    case Obj(m) => Ok(m)
  }

  function InventoryOf(v: Json): Inventory
    requires IsPlayerData(v)
  {
    Inventory(Member(v, "skins").value.items, Member(v, "equippedSkins").value.items)
  }

  /**
   * What the replacement parser returns for the value `parsed` that the
   * original parser produced, given the embedded `selection`.
   */
  function InjectPlayerData(parsed: Json, selection: Json): (r: Result<Json, Error>)
    ensures !IsPlayerData(parsed) ==> r == Ok(parsed)
    ensures r.Ok? && IsPlayerData(parsed) ==>
      && IsPlayerData(r.value)
      && r.value.Obj? && Keys(r.value.members) == Keys(parsed.members)
      && forall k :: k != "skins" && k != "equippedSkins" ==> Member(r.value, k) == Member(parsed, k)
    ensures r.Err? ==>
      IsPlayerData(parsed) &&
      (selection == Null || !NullFree(InventoryOf(parsed).skins) || !NullFree(InventoryOf(parsed).equipped))
  {
    if !IsPlayerData(parsed) then Ok(parsed)
    else
      var entries :- Entries(selection);
      InjectAllErr(InventoryOf(parsed), entries);
      var inv :- InjectAll(InventoryOf(parsed), entries);
      Ok(SetMember(SetMember(parsed, "skins", Arr(inv.skins)), "equippedSkins", Arr(inv.equipped)))
  }

  lemma {:induction false} InjectAllErr(inv: Inventory, entries: seq<Entry>)
    ensures InjectAll(inv, entries).Err? ==> !NullFree(inv.skins) || !NullFree(inv.equipped)
    decreases |entries|
  {
    if entries != [] {
      StepNulls(inv, entries[0]);
      var s := Step(inv, entries[0]);
      if s.Ok? {
        InjectAllErr(s.value, entries[1..]);
      }
    }
  }

  /** The replacement parser on player data, one phase at a time. */
  lemma InjectPlayerDataPhases(parsed: Json, selection: Json)
    requires IsPlayerData(parsed) && Entries(selection).Ok?
    ensures
      var run := InjectAll(InventoryOf(parsed), Entries(selection).value);
      InjectPlayerData(parsed, selection) ==
        if run.Err? then Err(TypeError)
        else Ok(SetMember(SetMember(parsed, "skins", Arr(run.value.skins)), "equippedSkins", Arr(run.value.equipped)))
  {
    var run := InjectAll(InventoryOf(parsed), Entries(selection).value);
    if run.Err? {
      assert run.error == TypeError;
    }
  }

  /** Distinct weapons, and a primitive name for every pair not passed over. */
  predicate PlainSelection(selection: Json) {
    var e := Entries(selection);
    e.Ok? ==>
      && DistinctWeapons(e.value)
      && forall j :: 0 <= j < |e.value| && !Skipped(e.value[j].1) ==> Primitive(e.value[j].1)
  }

  /**
   * Parsing the same player data again over the injected result gives the
   * same value: the replacement parser adds no duplicate skin and changes no
   * equipped entry the second time.
   */
  lemma InjectPlayerDataIdempotent(parsed: Json, selection: Json)
    requires InjectPlayerData(parsed, selection).Ok?
    requires PlainSelection(selection)
    ensures InjectPlayerData(InjectPlayerData(parsed, selection).value, selection) == InjectPlayerData(parsed, selection)
  {
    if IsPlayerData(parsed) {
      var entries := Entries(selection).value;
      InjectPlayerDataPhases(parsed, selection);
      var inv := InjectAll(InventoryOf(parsed), entries).value;
      InjectAllIdempotent(InventoryOf(parsed), entries);
      var once := SetMember(SetMember(parsed, "skins", Arr(inv.skins)), "equippedSkins", Arr(inv.equipped));
      assert "skins"[0] != "equippedSkins"[0];
      assert Member(once, "skins") == Some(Arr(inv.skins));
      assert Member(once, "equippedSkins") == Some(Arr(inv.equipped));
      assert InventoryOf(once) == inv;
      InjectPlayerDataPhases(once, selection);
      AssignExisting(once.members, "skins");
      var middle := SetMember(once, "skins", Arr(inv.skins));
      assert middle == once;
      AssignExisting(once.members, "equippedSkins");
    }
  }

  /** On empty arrays a pair not passed over adds its record to both. */
  lemma StepOnEmpty(weapon: string, skin: Json)
    requires !Skipped(skin)
    ensures Step(Inventory([], []), (weapon, skin)) == Ok(Inventory([SkinRecord(skin, weapon)], [SkinRecord(skin, weapon)]))
  {
    var rec := SkinRecord(skin, weapon);
    assert Owned([], skin, weapon) == Ok(false);
    assert FindWeapon([], weapon) == Ok(-1);
    assert [] + [rec] == [rec];
  }

  /** Player data with a user name and two empty arrays has the signature. */
  lemma FreshPlayerDataShape(user: string)
    ensures var parsed := Obj([("username", Str(user)), ("skins", Arr([])), ("equippedSkins", Arr([]))]);
      IsPlayerData(parsed) && InventoryOf(parsed) == Inventory([], []) && Member(parsed, "username") == Some(Str(user))
  {
    var parsed := Obj([("username", Str(user)), ("skins", Arr([])), ("equippedSkins", Arr([]))]);
    assert "username"[0] != "skins"[0] && "username"[0] != "equippedSkins"[0] && "skins"[0] != "equippedSkins"[0];
    var m := parsed.members;
    assert m[1..] == [("skins", Arr([])), ("equippedSkins", Arr([]))];
    assert m[1..][1..] == [("equippedSkins", Arr([]))];
    assert Member(parsed, "username") == Some(Str(user));
    assert Lookup(m[1..], "skins") == Some(Arr([]));
    assert Member(parsed, "skins") == Some(Arr([]));
    assert Lookup(m[1..][1..], "equippedSkins") == Some(Arr([]));
    assert Member(parsed, "equippedSkins") == Some(Arr([]));
    assert IsPlayerData(parsed);
  }

  lemma SinglePairOnEmpty(weapon: string, skin: Json)
    requires !Skipped(skin)
    ensures InjectAll(Inventory([], []), [(weapon, skin)]) ==
      Ok(Inventory([SkinRecord(skin, weapon)], [SkinRecord(skin, weapon)]))
  {
    var pairs := [(weapon, skin)];
    StepOnEmpty(weapon, skin);
    InjectAllUnfold(Inventory([], []), pairs);
    assert pairs[1..] == [];
  }

  /** A one-pair selection over player data whose two arrays are empty. */
  lemma SinglePairOnFreshData(parsed: Json, weapon: string, skin: Json)
    requires IsPlayerData(parsed) && InventoryOf(parsed) == Inventory([], []) && !Skipped(skin)
    ensures var rec := SkinRecord(skin, weapon);
      InjectPlayerData(parsed, Obj([(weapon, skin)])) ==
        Ok(SetMember(SetMember(parsed, "skins", Arr([rec])), "equippedSkins", Arr([rec])))
  {
    InjectPlayerDataPhases(parsed, Obj([(weapon, skin)]));
    SinglePairOnEmpty(weapon, skin);
  }

  /**
   * Fresh player data and the selection `{ ar: "ice" }`: one parse adds one
   * record to each array and keeps the user name.
   */
  lemma IceForArExample(user: string)
    ensures var parsed := Obj([("username", Str(user)), ("skins", Arr([])), ("equippedSkins", Arr([]))]);
      var rec := SkinRecord(Str("ice"), "ar");
      var r := InjectPlayerData(parsed, Obj([("ar", Str("ice"))]));
      && r.Ok?
      && Member(r.value, "skins") == Some(Arr([rec]))
      && Member(r.value, "equippedSkins") == Some(Arr([rec]))
      && Member(r.value, "username") == Some(Str(user))
  {
    var parsed := Obj([("username", Str(user)), ("skins", Arr([])), ("equippedSkins", Arr([]))]);
    var rec := SkinRecord(Str("ice"), "ar");
    FreshPlayerDataShape(user);
    assert "ice"[0] != "default"[0];
    SinglePairOnFreshData(parsed, "ar", Str("ice"));
    var once := SetMember(SetMember(parsed, "skins", Arr([rec])), "equippedSkins", Arr([rec]));
    assert "username"[0] != "skins"[0] && "username"[0] != "equippedSkins"[0] && "skins"[0] != "equippedSkins"[0];
    assert Member(once, "skins") == Some(Arr([rec]));
    assert Member(once, "username") == Some(Str(user));
  }

  /** A second parse of the output of `IceForArExample` changes nothing. */
  lemma IceForArStable(user: string)
    ensures var parsed := Obj([("username", Str(user)), ("skins", Arr([])), ("equippedSkins", Arr([]))]);
      var selection := Obj([("ar", Str("ice"))]);
      var r := InjectPlayerData(parsed, selection);
      r.Ok? && InjectPlayerData(r.value, selection) == r
  {
    var parsed := Obj([("username", Str(user)), ("skins", Arr([])), ("equippedSkins", Arr([]))]);
    var selection := Obj([("ar", Str("ice"))]);
    FreshPlayerDataShape(user);
    var pairs := [("ar", Str("ice"))];
    assert Entries(selection).value == pairs;
    assert DistinctWeapons(pairs) && !Skipped(Str("ice"));
    assert PlainSelection(selection);
    IceForArExample(user);
    InjectPlayerDataIdempotent(parsed, selection);
  }

  /** The selection `{ ar: "default" }` leaves player data as the parser produced it. */
  lemma DefaultSkinExample(parsed: Json)
    requires IsPlayerData(parsed)
    ensures InjectPlayerData(parsed, Obj([("ar", Str("default"))])) == Ok(parsed)
  {
    var entries := [("ar", Str("default"))];
    InjectPlayerDataPhases(parsed, Obj(entries));
    SkippedPairsChangeNothing(InventoryOf(parsed), entries);
    AssignExisting(parsed.members, "skins");
    AssignExisting(parsed.members, "equippedSkins");
  }

  /** The `for` loop of preload.js, lines 306-326, updating the two arrays in turn. */
  method InjectEntries(start: Inventory, pairs: seq<Entry>) returns (r: Result<Inventory, Error>)
    ensures r == InjectAll(start, pairs)
  {
    var skins, equipped := start.skins, start.equipped;
    var i := 0;
    assert Inventory(skins, equipped) == start && pairs[i..] == pairs;
    while i < |pairs|
      invariant 0 <= i <= |pairs|
      invariant InjectAll(start, pairs) == InjectAll(Inventory(skins, equipped), pairs[i..])
    {
      var (weapon, skinName) := pairs[i];
      ghost var before := Inventory(skins, equipped);
      ghost var rest := pairs[i..];
      assert rest[0] == pairs[i] && rest[1..] == pairs[i + 1..];
      if !Skipped(skinName) {
        var skinObj := SkinRecord(skinName, weapon);
        var owned := Owned(skins, skinName, weapon);
        if owned.Err? {
          assert Step(before, pairs[i]).Err?;
          InjectAllUnfold(before, rest);
          return Err(TypeError);
        }
        if !owned.value {
          skins := skins + [skinObj];
        }
        var idx := FindWeapon(equipped, weapon);
        if idx.Err? {
          assert Step(before, pairs[i]).Err?;
          InjectAllUnfold(before, rest);
          return Err(TypeError);
        }
        if idx.value != -1 {
          equipped := equipped[idx.value := skinObj];
        } else {
          equipped := equipped + [skinObj];
        }
      }
      assert Step(before, pairs[i]) == Ok(Inventory(skins, equipped));
      InjectAllUnfold(before, rest);
      i := i + 1;
    }
    assert pairs[i..] == [];
    r := Ok(Inventory(skins, equipped));
  }

  /** The replacement parser of preload.js, lines 293-330, after the original parser has run. */
  method Inject(parsed: Json, selection: Json) returns (r: Result<Json, Error>)
    ensures r == InjectPlayerData(parsed, selection)
  {
    if !IsPlayerData(parsed) {
      return Ok(parsed);
    }
    var entries := Entries(selection);
    if entries.Err? {
      return Err(TypeError);
    }
    InjectPlayerDataPhases(parsed, selection);
    var inv := InjectEntries(InventoryOf(parsed), entries.value);
    if inv.Err? {
      return Err(TypeError);
    }
    var result := SetMember(parsed, "skins", Arr(inv.value.skins));
    result := SetMember(result, "equippedSkins", Arr(inv.value.equipped));
    return Ok(result);
  }
}
