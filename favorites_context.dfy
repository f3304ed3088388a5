/** The favourites provider: the key that identifies a favourite match, the
    membership test, the mapping of stored rows to favourite items, and the
    provider's `favorites` and `auth` state with the transitions that
    `refreshSession`, `refreshFavorites` and `signOut` make. The Supabase
    client and its answers are parameters: whether a client is configured,
    the session it reports, the rows the query returns and whether it
    reported an error. */
module FavoritesContext {
  import opened Js
  import SportsConfig

  // ---------------------------------------------------------------------
  // Keys

  /** `makeKey(id, sport)`: the template `${sport}:${String(id)}`. */
  function MakeKey(id: Json, sport: Json): (key: string)
    ensures |key| == |JsString(sport)| + 1 + |JsString(id)|
    ensures key[|JsString(sport)|] == ':'
  {
    JsString(sport) + ":" + JsString(id)
  }

  /** A numeric id and its decimal string give the same key. */
  lemma NumericAndStringIdsAgree(n: int, sport: Json)
    ensures MakeKey(Num(n), sport) == MakeKey(Str(IntToString(n)), sport)
  {
  }

  /** When neither sport contains a colon, equal keys mean the same sport
      and the same `String(id)`. */
  lemma MakeKeySplits(id1: Json, sport1: Json, id2: Json, sport2: Json)
    requires ':' !in JsString(sport1) && ':' !in JsString(sport2)
    requires MakeKey(id1, sport1) == MakeKey(id2, sport2)
    ensures JsString(sport1) == JsString(sport2)
    ensures JsString(id1) == JsString(id2)
  {
    assert MakeKey(id1, sport1) == JsString(sport1) + [':'] + JsString(id1);
    assert MakeKey(id2, sport2) == JsString(sport2) + [':'] + JsString(id2);
    JoinedWithSeparator(JsString(sport1), JsString(id1), ':', JsString(sport2), JsString(id2));
  }

  /** No registered sport key contains a colon, so keys of registered sports
      never collide across sports. */
  lemma SportKeysHaveNoColon()
    ensures forall k | k in SportsConfig.SportConfigs :: ':' !in k
  {
  }

  /** The key of a stored item: `makeKey(item.id, item.sport)`. */
  function ItemKey(item: Json): string {
    MakeKey(Get(item, "id"), Get(item, "sport"))
  }

  /** `items.some(item => makeKey(item.id, item.sport) === key)`. */
  function AnyHasKey(items: seq<Json>, key: string): (b: bool)
    ensures b <==> exists i | 0 <= i < |items| :: ItemKey(items[i]) == key
  {
    if items == [] then false
    else if ItemKey(items[0]) == key then true
    else
      var b := AnyHasKey(items[1..], key);
      assert forall i | 1 <= i < |items| :: items[i] == items[1..][i - 1];
      b
  }

  // ---------------------------------------------------------------------
  // Rows to favourite items

  /** A row of the `favorites` table as selected: `sport, match_payload`. */
  datatype Row = Row(sport: Json, matchPayload: Json)

  /** The own properties an object spread copies from an array or string:
      its elements under the keys "0", "1", ... */
  function IndexFields(xs: seq<Json>): (m: map<string, Json>)
    ensures forall i | 0 <= i < |xs| :: NatToDecimal(i) in m && m[NatToDecimal(i)] == xs[i]
    ensures forall k | k in m :: |k| > 0 && IsDigit(k[0])
  {
    if xs == [] then map[]
    else
      var n := |xs| - 1;
      var m := IndexFields(xs[..n]);
      forall i | 0 <= i < |xs|
        ensures NatToDecimal(i) == NatToDecimal(n) ==> i == n
      {
        if NatToDecimal(i) == NatToDecimal(n) {
          NatToDecimalInjective(i, n);
        }
      }
      m[NatToDecimal(n) := xs[n]]
  }

  /** `{...v}`: an object's fields, the indexed elements of an array or the
      characters of a string, and nothing for any other value. */
  function SpreadFields(v: Json): (m: map<string, Json>)
    ensures v.Obj? ==> m == v.fields
    ensures !v.Obj? ==> forall k | k in m :: |k| > 0 && IsDigit(k[0])
  {
    match v
    case Obj(fields) => fields
    case Arr(items) => IndexFields(items)
    case Str(s) => IndexFields(seq(|s|, i requires 0 <= i < |s| => Str([s[i]])))
    case _ => map[]
  }

  /** `{ sport: row.sport, ...row.match_payload }`: the payload's properties
      win over `sport`. */
  function FavoriteItem(row: Row): (item: Json)
    ensures item.Obj? && "sport" in item.fields
    ensures row.matchPayload.Obj? && "sport" in row.matchPayload.fields ==>
      item.fields["sport"] == row.matchPayload.fields["sport"]
    ensures !(row.matchPayload.Obj? && "sport" in row.matchPayload.fields) ==>
      item.fields["sport"] == row.sport
    ensures row.matchPayload.Obj? ==>
      item.fields.Keys == row.matchPayload.fields.Keys + {"sport"} &&
      forall k | k in row.matchPayload.fields :: item.fields[k] == row.matchPayload.fields[k]
  {
    var spread := SpreadFields(row.matchPayload);
    assert !row.matchPayload.Obj? ==> "sport" !in spread by {
      assert !IsDigit("sport"[0]);
    }
    Obj(map["sport" := row.sport] + spread)
  }

  /** The `map` callback: `undefined` for a falsy payload, else the item. */
  function MappedRow(row: Row): (item: Json)
    ensures item == Undefined <==> Falsy(row.matchPayload)
    ensures !Falsy(row.matchPayload) ==> item == FavoriteItem(row)
  {
    if Falsy(row.matchPayload) then Undefined else FavoriteItem(row)
  }

  /** `.filter(Boolean)`: keeps the truthy values in order. */
  function KeepTruthy(xs: seq<Json>): (r: seq<Json>)
    ensures |r| <= |xs|
    ensures forall i | 0 <= i < |r| :: !Falsy(r[i])
    ensures forall i | 0 <= i < |xs| && !Falsy(xs[i]) :: xs[i] in r
  {
    if xs == [] then []
    else
      var rest := KeepTruthy(xs[1..]);
      assert forall i | 1 <= i < |xs| :: xs[i] == xs[1..][i - 1];
      if Falsy(xs[0]) then rest else [xs[0]] + rest
  }

  /** The mapping in `refreshFavorites`. */
  function MapRows(rows: seq<Row>): (items: seq<Json>)
    ensures |items| <= |rows|
  {
    KeepTruthy(seq(|rows|, i requires 0 <= i < |rows| => MappedRow(rows[i])))
  }

  /** On one value the filter keeps it exactly when it is truthy; with
      `KeepTruthyAppend` this fixes the filter on every list. */
  lemma KeepTruthyOne(x: Json)
    ensures KeepTruthy([x]) == if Falsy(x) then [] else [x]
  {
    assert [x][1..] == [];
  }

  lemma {:induction false} KeepTruthyAppend(a: seq<Json>, b: seq<Json>)
    ensures KeepTruthy(a + b) == KeepTruthy(a) + KeepTruthy(b)
  {
    if a != [] {
      assert (a + b)[0] == a[0];
      assert (a + b)[1..] == a[1..] + b;
      KeepTruthyAppend(a[1..], b);
      if !Falsy(a[0]) {
        assert KeepTruthy(a + b) == [a[0]] + (KeepTruthy(a[1..]) + KeepTruthy(b));
        assert KeepTruthy(a) == [a[0]] + KeepTruthy(a[1..]);
      } else {
        assert KeepTruthy(a + b) == KeepTruthy(a[1..]) + KeepTruthy(b);
      }
    } else {
      assert a + b == b;
    }
  }

  /** The mapping works row by row: on joined row lists it gives the joined
      results, in query order. */
  lemma MapRowsAppend(a: seq<Row>, b: seq<Row>)
    ensures MapRows(a + b) == MapRows(a) + MapRows(b)
  {
    var f := (rows: seq<Row>) => seq(|rows|, i requires 0 <= i < |rows| => MappedRow(rows[i]));
    assert f(a + b) == f(a) + f(b);
    KeepTruthyAppend(f(a), f(b));
  }

  /** A single row gives its item, or nothing when its payload is falsy. */
  lemma MapRowsOne(row: Row)
    ensures !Falsy(row.matchPayload) ==> MapRows([row]) == [FavoriteItem(row)]
    ensures Falsy(row.matchPayload) ==> MapRows([row]) == []
  {
    assert seq(1, i requires 0 <= i < 1 => MappedRow([row][i])) == [MappedRow(row)];
    assert [MappedRow(row)][1..] == [];
  }

  /** Every mapped item is an object carrying `sport`. */
  lemma MapRowsItems(rows: seq<Row>)
    ensures |MapRows(rows)| <= |rows|
    ensures forall i | 0 <= i < |MapRows(rows)| ::
      MapRows(rows)[i].Obj? && "sport" in MapRows(rows)[i].fields
  {
    var xs := seq(|rows|, i requires 0 <= i < |rows| => MappedRow(rows[i]));
    KeepTruthyItems(xs);
  }

  lemma {:induction false} KeepTruthyItems(xs: seq<Json>)
    requires forall i | 0 <= i < |xs| :: xs[i] == Undefined || (xs[i].Obj? && "sport" in xs[i].fields)
    ensures forall i | 0 <= i < |KeepTruthy(xs)| :: KeepTruthy(xs)[i].Obj? && "sport" in KeepTruthy(xs)[i].fields
  {
    if xs != [] {
      KeepTruthyItems(xs[1..]);
      if !Falsy(xs[0]) {
        assert KeepTruthy(xs) == [xs[0]] + KeepTruthy(xs[1..]);
      }
    }
  }

  // ---------------------------------------------------------------------
  // Provider state

  /** `AuthState`; an optional property that is not set is `Undefined`. */
  datatype AuthState = AuthState(session: Json, userEmail: Json, loading: bool)

  const SignedOut: AuthState := AuthState(Undefined, Undefined, false)

  /** Stored favourites are objects carrying `sport`. */
  predicate WellFormedItems(items: seq<Json>) {
    forall i | 0 <= i < |items| :: items[i].Obj? && "sport" in items[i].fields
  }

  /** The session is never `null` (it is coalesced to `undefined`), and there
      is no e-mail without a session. */
  predicate WellFormedAuth(a: AuthState) {
    a.session != Null && a.userEmail != Null && (a.session == Undefined ==> a.userEmail == Undefined)
  }

  class FavoritesProvider {
    var favorites: seq<Json>
    var auth: AuthState

    /** The provider's invariant, the source's `FavoriteItem[]` and
        `AuthState` types as the setters fill them: every stored favourite
        is an object carrying `sport` (`MapRowsItems` gives this for the
        mapped rows), the session is never null and there is no e-mail
        without a session. */
    predicate Valid()
      reads this
    {
      WellFormedItems(favorites) && WellFormedAuth(auth)
    }

    /** The initial state: no favourites, auth loading. */
    constructor()
      ensures favorites == []
      ensures auth == AuthState(Undefined, Undefined, true)
      ensures Valid()
    {
      favorites := [];
      auth := AuthState(Undefined, Undefined, true);
    }

    /** `refreshSession`: without a client, signed out; otherwise the
        reported session (null becoming undefined) and its user's e-mail.
        Either way loading ends and favourites are untouched. */
    method RefreshSession(client: bool, session: Json)
      requires Valid()
      modifies this
      ensures Valid()
      ensures favorites == old(favorites)
      ensures !auth.loading
      ensures !client ==> auth == SignedOut
      ensures client ==> auth.session == Coalesce(session, Undefined)
      ensures client ==> auth.userEmail == Coalesce(Get(Get(session, "user"), "email"), Undefined)
      ensures Nullish(session) ==> auth == SignedOut
    {
      if !client {
        auth := SignedOut;
        return;
      }
      auth := AuthState(
        Coalesce(session, Undefined),
        Coalesce(Get(Get(session, "user"), "email"), Undefined),
        false);
    }

    /** `refreshFavorites`: the mapped rows when there is a client, a
        session, no error and some data; the empty list otherwise. Auth is
        untouched. */
    method RefreshFavorites(client: bool, session: Json, data: Option<seq<Row>>, hasError: bool)
      requires Valid()
      modifies this
      ensures Valid()
      ensures auth == old(auth)
      ensures !client || Falsy(session) || hasError || data.None? ==> favorites == []
      ensures client && !Falsy(session) && !hasError && data.Some? ==> favorites == MapRows(data.value)
    {
      if !client {
        favorites := [];
        return;
      }
      if Falsy(session) {
        favorites := [];
        return;
      }
      if hasError || data.None? {
        favorites := [];
        return;
      }
      MapRowsItems(data.value);
      favorites := MapRows(data.value);
    }

    /** `signOut`: nothing without a client; otherwise signed out with no
        favourites, so nothing is a favourite any more. */
    method SignOut(client: bool)
      requires Valid()
      modifies this
      ensures Valid()
      ensures !client ==> favorites == old(favorites) && auth == old(auth)
      ensures client ==> favorites == [] && auth == SignedOut
      ensures client ==> forall id, sport :: !IsFavorite(id, sport)
    {
      if !client {
        return;
      }
      auth := SignedOut;
      favorites := [];
    }

    /** `isFavorite(id, sport)`: some stored item has the same key. */
    function IsFavorite(id: Json, sport: string): (b: bool)
      reads this
      ensures b <==> exists i | 0 <= i < |favorites| :: ItemKey(favorites[i]) == MakeKey(id, Str(sport))
      ensures favorites == [] ==> !b
    {
      AnyHasKey(favorites, MakeKey(id, Str(sport)))
    }
  }
}
