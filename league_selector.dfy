/** The league list of the league selector: each live record is mapped to
    a `[leagueId, {id, name}]` pair, the pairs go through a `Map` (which
    keeps the first insertion position of a key and the last value set for
    it), and the entries whose id is null are dropped. */
module LeagueSelector {
  import opened Js

  datatype LeagueOption = LeagueOption(id: Json, name: Json)

  /** `m?.league?.id ?? m?.league?.league_id ?? m?.league_id ?? null`. */
  function LeagueIdOf(m: Json): (id: Json)
    ensures id != Undefined
  {
    Coalesce(Get(Get(m, "league"), "id"), Coalesce(Get(Get(m, "league"), "league_id"), Coalesce(Get(m, "league_id"), Null)))
  }

  /** The id is the first present of the three paths, and null exactly when
      none of them is present. */
  lemma LeagueIdResolution(m: Json)
    ensures LeagueIdOf(m) ==
      FirstPresent([Get(Get(m, "league"), "id"), Get(Get(m, "league"), "league_id"), Get(m, "league_id")], Null)
    ensures LeagueIdOf(m) == Null <==>
      Nullish(Get(Get(m, "league"), "id")) && Nullish(Get(Get(m, "league"), "league_id")) && Nullish(Get(m, "league_id"))
  {
    FirstPresentThree(Get(Get(m, "league"), "id"), Get(Get(m, "league"), "league_id"), Get(m, "league_id"), Null);
  }

  const UnknownLeague: Json := Str("Unknown League")

  /** `m?.league?.name ?? m?.league?.league_name ?? m?.league_name ?? "Unknown League"`. */
  function LeagueNameOf(m: Json): (name: Json)
    ensures !Nullish(name)
  {
    Coalesce(Get(Get(m, "league"), "name"), Coalesce(Get(Get(m, "league"), "league_name"), Coalesce(Get(m, "league_name"), UnknownLeague)))
  }

  /** The name is the first present of the three paths, else "Unknown League". */
  lemma LeagueNameResolution(m: Json)
    ensures LeagueNameOf(m) ==
      FirstPresent([Get(Get(m, "league"), "name"), Get(Get(m, "league"), "league_name"), Get(m, "league_name")], UnknownLeague)
  {
    FirstPresentThree(Get(Get(m, "league"), "name"), Get(Get(m, "league"), "league_name"), Get(m, "league_name"), UnknownLeague);
  }

  // ---------------------------------------------------------------------
  // Positions in a list of keys

  /** Position of the first `k` in `ks`, or `|ks|` when there is none. */
  function FirstIndex(ks: seq<Json>, k: Json): (i: nat)
    ensures i <= |ks|
    ensures i < |ks| <==> k in ks
    ensures i < |ks| ==> ks[i] == k
    ensures forall j | 0 <= j < i :: ks[j] != k
  {
    if ks == [] then 0
    else if ks[0] == k then 0
    else 1 + FirstIndex(ks[1..], k)
  }

  /** Position of the last `k` in `ks`. */
  function LastIndex(ks: seq<Json>, k: Json): (i: nat)
    requires k in ks
    ensures i < |ks| && ks[i] == k
    ensures forall j | i < j < |ks| :: ks[j] != k
  {
    if ks[|ks| - 1] == k then |ks| - 1
    else
      assert k in ks[..|ks| - 1] by {
        var j :| 0 <= j < |ks| && ks[j] == k;
        assert ks[..|ks| - 1][j] == k;
      }
      LastIndex(ks[..|ks| - 1], k)
  }

  /** Appending a key moves no earlier first position and makes the new
      key's last position the end. */
  lemma IndexAfterAppend(ks: seq<Json>, k: Json, x: Json)
    ensures x in ks ==> FirstIndex(ks + [k], x) == FirstIndex(ks, x)
    ensures x !in ks ==> FirstIndex(ks + [k], x) >= |ks|
    ensures x in ks && x != k ==> LastIndex(ks + [k], x) == LastIndex(ks, x)
    ensures LastIndex(ks + [k], k) == |ks|
  {
    var ks' := ks + [k];
    assert forall j | 0 <= j < |ks| :: ks'[j] == ks[j];
    if x in ks {
      var f, f' := FirstIndex(ks, x), FirstIndex(ks', x);
      assert ks'[f] == x;
      if x != k {
        var l, l' := LastIndex(ks, x), LastIndex(ks', x);
        assert ks'[l] == x;
      }
    }
  }

  // ---------------------------------------------------------------------
  // The `Map` as an insertion-ordered association list

  type Entry = (Json, LeagueOption)

  function Keys(r: seq<Entry>): (ks: seq<Json>)
    ensures |ks| == |r|
    ensures forall i | 0 <= i < |r| :: ks[i] == r[i].0
  {
    seq(|r|, i requires 0 <= i < |r| => r[i].0)
  }

  /** `map.set(k, v)`: an existing key keeps its position and takes the new
      value; a new key is appended. */
  function MapSet(r: seq<Entry>, k: Json, v: LeagueOption): seq<Entry> {
    var i := FirstIndex(Keys(r), k);
    if i < |r| then r[i := (k, v)] else r + [(k, v)]
  }

  /** `new Map(pairs)`: the pairs set one after the other. */
  function MapOf(pairs: seq<Entry>): (m: seq<Entry>)
    ensures |m| <= |pairs|
  {
    if pairs == [] then []
    else
      var last := pairs[|pairs| - 1];
      MapSet(MapOf(pairs[..|pairs| - 1]), last.0, last.1)
  }

  predicate DistinctKeys(r: seq<Entry>) {
    forall i, j | 0 <= i < j < |r| :: r[i].0 != r[j].0
  }

  /** Every key of the map is one of `ks`, and every one of `ks` is a key. */
  predicate SameKeys(r: seq<Entry>, ks: seq<Json>) {
    && (forall i | 0 <= i < |r| :: r[i].0 in ks)
    && (forall k | k in ks :: k in Keys(r))
  }

  /** Each key holds the value of the last pair carrying it. */
  predicate LastValues(r: seq<Entry>, pairs: seq<Entry>) {
    forall i | 0 <= i < |r| && r[i].0 in Keys(pairs) :: r[i].1 == pairs[LastIndex(Keys(pairs), r[i].0)].1
  }

  /** The keys are in order of their first occurrence in `ks`. */
  predicate FirstOrder(r: seq<Entry>, ks: seq<Json>) {
    forall i, j | 0 <= i < j < |r| :: FirstIndex(ks, r[i].0) < FirstIndex(ks, r[j].0)
  }

  /** What the map holds after the pairs: each key once, every key of the
      pairs and no other, in order of first insertion, each with the value
      of the last pair carrying that key. */
  predicate MapOfPairs(r: seq<Entry>, pairs: seq<Entry>) {
    DistinctKeys(r) && SameKeys(r, Keys(pairs)) && LastValues(r, pairs) && FirstOrder(r, Keys(pairs))
  }

  lemma MapSetKeys(r0: seq<Entry>, init: seq<Entry>, k: Json, v: LeagueOption)
    requires DistinctKeys(r0) && SameKeys(r0, Keys(init))
    ensures DistinctKeys(MapSet(r0, k, v)) && SameKeys(MapSet(r0, k, v), Keys(init + [(k, v)]))
  {
    var r := MapSet(r0, k, v);
    var ks0, ks := Keys(init), Keys(init + [(k, v)]);
    assert ks == ks0 + [k];
    var idx := FirstIndex(Keys(r0), k);
    if idx < |r0| {
      assert r == r0[idx := (k, v)];
      assert Keys(r) == Keys(r0);
    } else {
      assert r == r0 + [(k, v)];
      assert Keys(r) == Keys(r0) + [k];
    }
  }

  lemma MapSetValues(r0: seq<Entry>, init: seq<Entry>, k: Json, v: LeagueOption)
    requires DistinctKeys(r0) && SameKeys(r0, Keys(init)) && LastValues(r0, init)
    ensures LastValues(MapSet(r0, k, v), init + [(k, v)])
  {
    var r := MapSet(r0, k, v);
    var pairs := init + [(k, v)];
    var ks0, ks := Keys(init), Keys(pairs);
    assert ks == ks0 + [k];
    var idx := FirstIndex(Keys(r0), k);
    IndexAfterAppend(ks0, k, k);
    forall i | 0 <= i < |r| && r[i].0 in ks
      ensures r[i].1 == pairs[LastIndex(ks, r[i].0)].1
    {
      if r[i].0 != k {
        assert r[i] == r0[i];
        IndexAfterAppend(ks0, k, r[i].0);
        assert pairs[LastIndex(ks0, r[i].0)] == init[LastIndex(ks0, r[i].0)];
      } else if idx < |r0| {
        assert r == r0[idx := (k, v)];
        assert r0[i].0 == k;
        assert i == idx;
      } else {
        assert r == r0 + [(k, v)];
        assert i == |r0|;
      }
    }
  }

  lemma MapSetOrder(r0: seq<Entry>, init: seq<Entry>, k: Json, v: LeagueOption)
    requires SameKeys(r0, Keys(init)) && FirstOrder(r0, Keys(init))
    ensures FirstOrder(MapSet(r0, k, v), Keys(init + [(k, v)]))
  {
    var r := MapSet(r0, k, v);
    var ks0, ks := Keys(init), Keys(init + [(k, v)]);
    assert ks == ks0 + [k];
    var idx := FirstIndex(Keys(r0), k);
    forall i, j | 0 <= i < j < |r|
      ensures FirstIndex(ks, r[i].0) < FirstIndex(ks, r[j].0)
    {
      if idx < |r0| {
        assert r == r0[idx := (k, v)];
        assert r[i].0 == r0[i].0 && r[j].0 == r0[j].0;
        IndexAfterAppend(ks0, k, r0[i].0);
        IndexAfterAppend(ks0, k, r0[j].0);
      } else {
        assert r == r0 + [(k, v)];
        assert r[i] == r0[i];
        IndexAfterAppend(ks0, k, r0[i].0);
        if j < |r0| {
          assert r[j] == r0[j];
          IndexAfterAppend(ks0, k, r0[j].0);
        } else {
          assert k !in ks0;
          IndexAfterAppend(ks0, k, k);
        }
      }
    }
  }

  lemma {:induction false} MapOfSpec(pairs: seq<Entry>)
    ensures MapOfPairs(MapOf(pairs), pairs)
  {
    if pairs != [] {
      var init := pairs[..|pairs| - 1];
      var k, v := pairs[|pairs| - 1].0, pairs[|pairs| - 1].1;
      MapOfSpec(init);
      assert pairs == init + [(k, v)];
      MapSetKeys(MapOf(init), init, k, v);
      MapSetValues(MapOf(init), init, k, v);
      MapSetOrder(MapOf(init), init, k, v);
    }
  }

  // ---------------------------------------------------------------------
  // The league list

  /** The `[leagueId, {id: leagueId, name: leagueName}]` pair of a record. */
  function PairOf(m: Json): Entry {
    var id := LeagueIdOf(m);
    (id, LeagueOption(id, LeagueNameOf(m)))
  }

  function Pairs(records: seq<Json>): (ps: seq<Entry>)
    ensures |ps| == |records|
    ensures forall i | 0 <= i < |records| :: ps[i] == PairOf(records[i])
  {
    seq(|records|, i requires 0 <= i < |records| => PairOf(records[i]))
  }

  /** The league id of every record, in record order. */
  function RecordIds(records: seq<Json>): seq<Json> {
    Keys(Pairs(records))
  }

  /** `Array.from(map.values())`. */
  function Values(r: seq<Entry>): (vs: seq<LeagueOption>)
    ensures |vs| == |r|
    ensures forall i | 0 <= i < |r| :: vs[i] == r[i].1
  {
    seq(|r|, i requires 0 <= i < |r| => r[i].1)
  }

  /** `.filter(l => l.id !== null)`: keeps the non-null entries in order. */
  function DropNullIds(s: seq<LeagueOption>): (r: seq<LeagueOption>)
    ensures |r| <= |s|
  {
    if s == [] then []
    else if s[0].id == Null then DropNullIds(s[1..])
    else [s[0]] + DropNullIds(s[1..])
  }

  /** The filter keeps exactly the elements whose id is not null. */
  lemma {:induction false} DropNullIdsMembers(s: seq<LeagueOption>)
    ensures forall i | 0 <= i < |DropNullIds(s)| :: DropNullIds(s)[i] in s && DropNullIds(s)[i].id != Null
    ensures forall i | 0 <= i < |s| && s[i].id != Null :: s[i] in DropNullIds(s)
  {
    if s != [] {
      var tail := s[1..];
      DropNullIdsMembers(tail);
      var r, rt := DropNullIds(s), DropNullIds(tail);
      if s[0].id != Null {
        assert r == [s[0]] + rt;
        forall i | 0 <= i < |r|
          ensures r[i] in s && r[i].id != Null
        {
          if i > 0 {
            assert r[i] == rt[i - 1];
          }
        }
        forall i | 0 <= i < |s| && s[i].id != Null
          ensures s[i] in r
        {
          if i > 0 {
            assert s[i] == tail[i - 1];
          }
        }
      } else {
        assert r == rt;
        forall i | 0 <= i < |s| && s[i].id != Null
          ensures s[i] in r
        {
          assert s[i] == tail[i - 1];
        }
      }
    }
  }

  /** The head of a strictly ranked list ranks below everything the filter
      keeps of its tail. */
  lemma HeadBeforeFilteredTail(s: seq<LeagueOption>, rank: LeagueOption -> int)
    requires s != []
    requires forall i, j | 0 <= i < j < |s| :: rank(s[i]) < rank(s[j])
    ensures forall j | 0 <= j < |DropNullIds(s[1..])| :: rank(s[0]) < rank(DropNullIds(s[1..])[j])
  {
    var tail := s[1..];
    var rt := DropNullIds(tail);
    DropNullIdsMembers(tail);
    forall j | 0 <= j < |rt|
      ensures rank(s[0]) < rank(rt[j])
    {
      var t :| 0 <= t < |tail| && tail[t] == rt[j];
      assert s[t + 1] == rt[j];
    }
  }

  /** Filtering keeps the relative order of what it keeps, for any ranking
      the input is strictly increasing in. */
  lemma {:induction false} DropNullIdsKeepsOrder(s: seq<LeagueOption>, rank: LeagueOption -> int)
    requires forall i, j | 0 <= i < j < |s| :: rank(s[i]) < rank(s[j])
    ensures forall i, j | 0 <= i < j < |DropNullIds(s)| :: rank(DropNullIds(s)[i]) < rank(DropNullIds(s)[j])
  {
    if s != [] {
      var tail := s[1..];
      DropNullIdsKeepsOrder(tail, rank);
      var r := DropNullIds(s);
      var rt := DropNullIds(tail);
      if s[0].id != Null {
        assert r == [s[0]] + rt;
        HeadBeforeFilteredTail(s, rank);
        forall i, j | 0 <= i < j < |r|
          ensures rank(r[i]) < rank(r[j])
        {
          assert r[j] == rt[j - 1];
          if i > 0 {
            assert r[i] == rt[i - 1];
          }
        }
      } else {
        assert r == rt;
      }
    }
  }

  /** The `leagues` list of the selector for the live records. */
  function Leagues(records: seq<Json>): (leagues: seq<LeagueOption>)
    ensures |leagues| <= |records|
  {
    DropNullIds(Values(MapOf(Pairs(records))))
  }

  /** No entry has a null id or an id no record has, and each entry's name
      is the name of the last record with its id. */
  lemma LeaguesSound(records: seq<Json>)
    ensures forall i | 0 <= i < |Leagues(records)| ::
      Leagues(records)[i].id != Null && Leagues(records)[i].id in RecordIds(records)
    ensures forall i | 0 <= i < |Leagues(records)| ::
      Leagues(records)[i].name == LeagueNameOf(records[LastIndex(RecordIds(records), Leagues(records)[i].id)])
  {
    var pairs := Pairs(records);
    var ids := RecordIds(records);
    var m := MapOf(pairs);
    var vs := Values(m);
    var r := Leagues(records);
    MapOfSpec(pairs);
    DropNullIdsMembers(vs);
    forall i | 0 <= i < |r|
      ensures r[i].id != Null && r[i].id in ids
      ensures r[i].name == LeagueNameOf(records[LastIndex(ids, r[i].id)])
    {
      var t :| 0 <= t < |vs| && vs[t] == r[i];
      assert m[t].0 in ids;
      assert r[i] == pairs[LastIndex(ids, m[t].0)].1;
    }
  }

  /** Every record whose league id is not null has an entry with that id. */
  lemma LeaguesComplete(records: seq<Json>)
    ensures forall j | 0 <= j < |records| && LeagueIdOf(records[j]) != Null ::
      exists i | 0 <= i < |Leagues(records)| :: Leagues(records)[i].id == LeagueIdOf(records[j])
  {
    var pairs := Pairs(records);
    var ids := RecordIds(records);
    var m := MapOf(pairs);
    var vs := Values(m);
    var r := Leagues(records);
    MapOfSpec(pairs);
    DropNullIdsMembers(vs);
    forall j | 0 <= j < |records| && LeagueIdOf(records[j]) != Null
      ensures exists i | 0 <= i < |r| :: r[i].id == LeagueIdOf(records[j])
    {
      var x := LeagueIdOf(records[j]);
      assert ids[j] == x;
      assert x in ids;
      assert x in Keys(m);
      var t :| 0 <= t < |m| && Keys(m)[t] == x;
      assert m[t].0 in ids;
      assert pairs[LastIndex(ids, m[t].0)].1.id == x;
      assert vs[t] in r;
    }
  }

  /** Entries follow the first occurrence of their id among the records,
      so no id appears twice. */
  lemma LeaguesOrdered(records: seq<Json>)
    ensures forall i, j | 0 <= i < j < |Leagues(records)| ::
      FirstIndex(RecordIds(records), Leagues(records)[i].id) < FirstIndex(RecordIds(records), Leagues(records)[j].id)
    ensures forall i, j | 0 <= i < j < |Leagues(records)| :: Leagues(records)[i].id != Leagues(records)[j].id
  {
    var pairs := Pairs(records);
    var ids := RecordIds(records);
    var m := MapOf(pairs);
    var vs := Values(m);
    var r := Leagues(records);
    MapOfSpec(pairs);
    forall i | 0 <= i < |vs|
      ensures vs[i].id == m[i].0
    {
      assert m[i].0 in ids;
      assert vs[i] == pairs[LastIndex(ids, m[i].0)].1;
    }
    DropNullIdsKeepsOrder(vs, (x: LeagueOption) => FirstIndex(ids, x.id));
  }

  /** `data?.response ?? []` then the league list; a present non-array
      response makes `.map` throw, so it is excluded. */
  function LeaguesOf(data: Json): (r: seq<LeagueOption>)
    requires Nullish(Get(data, "response")) || Get(data, "response").Arr?
    ensures Nullish(Get(data, "response")) ==> r == []
    ensures Get(data, "response").Arr? ==> r == Leagues(Get(data, "response").items)
  {
    var matches := Coalesce(Get(data, "response"), Arr([]));
    Leagues(matches.items)
  }

  /** Setting one key twice leaves one entry holding the second value. */
  lemma MapOfSameKeyTwice(x: Json, v1: LeagueOption, v2: LeagueOption)
    ensures MapOf([(x, v1), (x, v2)]) == [(x, v2)]
  {
    var ps := [(x, v1), (x, v2)];
    assert ps[..1] == [(x, v1)];
    assert [(x, v1)][..0] == [];
    assert MapOf([(x, v1)]) == MapSet([], x, v1) == [(x, v1)];
    assert Keys([(x, v1)]) == [x];
    assert FirstIndex([x], x) == 0;
  }

  /** Two records of one league collapse to one entry, named after the
      second one. */
  lemma SameLeagueCollapses(a: Json, b: Json)
    requires LeagueIdOf(a) == LeagueIdOf(b) != Null
    ensures Leagues([a, b]) == [LeagueOption(LeagueIdOf(a), LeagueNameOf(b))]
  {
    var pa, pb := PairOf(a), PairOf(b);
    assert Pairs([a, b]) == [pa, pb];
    MapOfSameKeyTwice(pa.0, pa.1, pb.1);
    assert Values([(pa.0, pb.1)]) == [pb.1];
    assert DropNullIds([pb.1]) == [pb.1] + DropNullIds([]);
  }
}
