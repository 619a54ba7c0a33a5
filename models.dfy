/**
 * The credential table of models.py: one `UserToken` row per user, keyed by a
 * unique e-mail address, holding the credential serialised as JSON.
 * `save_user_tokens` updates the row for an address in place or adds one;
 * `get_all_user_tokens` loads one credential per row, in query order.
 */
module Models {
  import opened Wrappers

  /** A credential, represented by the JSON text its `to_json()` gives. */
  datatype Credentials = Credentials(json: string)

  /** A row of the table: the primary key, the unique e-mail address and the credential JSON. */
  datatype UserToken = UserToken(id: nat, email: string, tokenJson: string)

  /** The rows in query order and the next value of the auto-incremented key. */
  datatype Table = Table(rows: seq<UserToken>, nextId: nat)

  predicate UniqueEmails(rows: seq<UserToken>)
  {
    forall i, j :: 0 <= i < j < |rows| ==> rows[i].email != rows[j].email
  }

  predicate UniqueIds(rows: seq<UserToken>)
  {
    forall i, j :: 0 <= i < j < |rows| ==> rows[i].id != rows[j].id
  }

  /** The constraints of the schema: unique e-mail column, unique keys, keys below the next one. */
  predicate TableValid(t: Table)
  {
    && UniqueEmails(t.rows)
    && UniqueIds(t.rows)
    && forall i :: 0 <= i < |t.rows| ==> t.rows[i].id < t.nextId
  }

  /** The row `filter_by(email=email).first()` finds. */
  function FirstWithEmail(rows: seq<UserToken>, email: string): (r: Option<nat>)
    ensures r.Some? ==> r.value < |rows| && rows[r.value].email == email
    ensures r.Some? ==> forall i :: 0 <= i < r.value ==> rows[i].email != email
    ensures r.None? ==> forall i :: 0 <= i < |rows| ==> rows[i].email != email
  {
    if rows == [] then None
    else if rows[0].email == email then Some(0)
    else match FirstWithEmail(rows[1..], email)
      case None => None
      case Some(k) => Some(k + 1)
  }

  /** The table after `save_user_tokens(email, c)` with `c.to_json() == tokenJson`. */
  function Upsert(t: Table, email: string, tokenJson: string): (u: Table)
    ensures exists k :: 0 <= k < |u.rows| && u.rows[k].email == email && u.rows[k].tokenJson == tokenJson
  {
    match FirstWithEmail(t.rows, email)
    case Some(k) =>
      var rows := t.rows[k := t.rows[k].(tokenJson := tokenJson)];
      assert rows[k].email == email && rows[k].tokenJson == tokenJson;
      Table(rows, t.nextId)
    case None =>
      var rows := t.rows + [UserToken(t.nextId, email, tokenJson)];
      assert rows[|t.rows|].email == email && rows[|t.rows|].tokenJson == tokenJson;
      Table(rows, t.nextId + 1)
  }

  /** An existing row keeps its key and position; only its credential changes, and no other row does. */
  lemma UpsertUpdatesExisting(t: Table, email: string, tokenJson: string, k: nat)
    requires UniqueEmails(t.rows)
    requires k < |t.rows| && t.rows[k].email == email
    ensures Upsert(t, email, tokenJson)
         == Table(t.rows[k := UserToken(t.rows[k].id, email, tokenJson)], t.nextId)
  {
    var r := FirstWithEmail(t.rows, email);
    assert r == Some(k);
  }

  /** A new address gets exactly one new row at the end, under the next key; no other row changes. */
  lemma UpsertAddsNew(t: Table, email: string, tokenJson: string)
    requires forall i :: 0 <= i < |t.rows| ==> t.rows[i].email != email
    ensures Upsert(t, email, tokenJson)
         == Table(t.rows + [UserToken(t.nextId, email, tokenJson)], t.nextId + 1)
  {
  }

  /** Every upsert keeps the schema's constraints, and leaves exactly one row for the address. */
  lemma UpsertKeepsTableValid(t: Table, email: string, tokenJson: string)
    requires TableValid(t)
    ensures TableValid(Upsert(t, email, tokenJson))
    ensures exists k :: && 0 <= k < |Upsert(t, email, tokenJson).rows|
                        && Upsert(t, email, tokenJson).rows[k].email == email
                        && Upsert(t, email, tokenJson).rows[k].tokenJson == tokenJson
                        && forall i :: 0 <= i < |Upsert(t, email, tokenJson).rows| && i != k ==>
                             Upsert(t, email, tokenJson).rows[i].email != email
  {
    var u := Upsert(t, email, tokenJson);
    match FirstWithEmail(t.rows, email)
    case Some(k) =>
      assert u.rows[k].email == email;
    case None =>
      var k := |t.rows|;
      assert u.rows == t.rows + [UserToken(t.nextId, email, tokenJson)];
      assert u.rows[k].email == email;
  }

  /** Saving the same credential twice for an address leaves the table as saving it once. */
  lemma UpsertIdempotent(t: Table, email: string, tokenJson: string)
    ensures Upsert(Upsert(t, email, tokenJson), email, tokenJson) == Upsert(t, email, tokenJson)
  {
    var u := Upsert(t, email, tokenJson);
    match FirstWithEmail(t.rows, email)
    case Some(k) =>
      FirstWithEmailIsFirst(u.rows, email, k);
      assert u.rows[k := u.rows[k].(tokenJson := tokenJson)] == u.rows;
    case None =>
      var k := |t.rows|;
      FirstWithEmailIsFirst(u.rows, email, k);
      assert u.rows[k := u.rows[k].(tokenJson := tokenJson)] == u.rows;
  }

  /** What `get_all_user_tokens` returns: one credential per row, or None when loading one raises. */
  function LoadAll(rows: seq<UserToken>, loadable: string -> bool): (r: Option<seq<Credentials>>)
    ensures r.None? <==> exists i :: 0 <= i < |rows| && !loadable(rows[i].tokenJson)
    ensures r.Some? ==> |r.value| == |rows|
    ensures r.Some? ==> forall i :: 0 <= i < |rows| ==> r.value[i].json == rows[i].tokenJson
  {
    if exists i :: 0 <= i < |rows| && !loadable(rows[i].tokenJson) then None
    else Some(seq(|rows|, i requires 0 <= i < |rows| => Credentials(rows[i].tokenJson)))
  }

  /** After saving a credential for an address, loading the table gives back that credential for it. */
  lemma SavedCredentialIsLoaded(t: Table, email: string, c: Credentials, loadable: string -> bool)
    requires UniqueEmails(t.rows)
    requires LoadAll(Upsert(t, email, c.json).rows, loadable).Some?
    ensures exists k :: && 0 <= k < |Upsert(t, email, c.json).rows|
                        && Upsert(t, email, c.json).rows[k].email == email
                        && LoadAll(Upsert(t, email, c.json).rows, loadable).value[k] == c
  {
    var u := Upsert(t, email, c.json);
    var k :| 0 <= k < |u.rows| && u.rows[k].email == email && u.rows[k].tokenJson == c.json;
    assert LoadAll(u.rows, loadable).value[k] == Credentials(c.json) == c;
  }

  /** The `UserToken` table. */
  class TokenTable {
    var rows: seq<UserToken>
    var nextId: nat

    ghost predicate Valid()
      reads this
    {
      TableValid(Table(rows, nextId))
    }

    constructor ()
      ensures Valid() && rows == [] && nextId == 1
    {
      rows := [];
      nextId := 1;
    }

    /** `UserToken.query.filter_by(email=email).first()`: the first row with that address. */
    method FindByEmail(email: string) returns (index: Option<nat>)
      ensures index == FirstWithEmail(rows, email)
    {
      var i := 0;
      while i < |rows|
        invariant 0 <= i <= |rows|
        invariant forall j :: 0 <= j < i ==> rows[j].email != email
      {
        if rows[i].email == email {
          FirstWithEmailIsFirst(rows, email, i);
          return Some(i);
        }
        i := i + 1;
      }
      return None;
    }

    /**
     * `save_user_tokens`: update the address's row in place, or add one, then
     * commit. `dbSucceeds` says whether the database answers the lookup and
     * accepts the commit; when it does not, the call raises (`saved` is false)
     * and, the transaction never being committed, the table is unchanged.
     */
    method SaveUserTokens(email: string, credentials: Credentials, dbSucceeds: bool) returns (saved: bool)
      requires Valid()
      modifies this
      ensures Valid()
      ensures saved == dbSucceeds
      ensures saved ==> Table(rows, nextId) == Upsert(old(Table(rows, nextId)), email, credentials.json)
      ensures !saved ==> rows == old(rows) && nextId == old(nextId)
    {
      if !dbSucceeds {
        return false;
      }
      saved := true;
      var tokenJson := credentials.json;
      ghost var before := Table(rows, nextId);
      var user := FindByEmail(email);
      if user.Some? {
        rows := rows[user.value := rows[user.value].(tokenJson := tokenJson)];
      } else {
        rows := rows + [UserToken(nextId, email, tokenJson)];
        nextId := nextId + 1;
      }
      UpsertKeepsTableValid(before, email, tokenJson);
    }

    /** `get_all_user_tokens`: load one credential per row, in query order; a row that cannot be loaded raises. */
    method GetAllUserTokens(loadable: string -> bool) returns (tokens: Option<seq<Credentials>>)
      ensures tokens == LoadAll(rows, loadable)
    {
      var users := rows;
      var loaded: seq<Credentials> := [];
      var i := 0;
      while i < |users|
        invariant 0 <= i <= |users|
        invariant |loaded| == i
        invariant forall j :: 0 <= j < i ==> loadable(users[j].tokenJson) && loaded[j] == Credentials(users[j].tokenJson)
      {
        if !loadable(users[i].tokenJson) {
          assert LoadAll(users, loadable).None?;
          return None;
        }
        loaded := loaded + [Credentials(users[i].tokenJson)];
        i := i + 1;
      }
      assert loaded == seq(|users|, j requires 0 <= j < |users| => Credentials(users[j].tokenJson));
      tokens := Some(loaded);
    }
  }

  /** The first index whose row carries the address is the one FirstWithEmail gives. */
  lemma {:induction false} FirstWithEmailIsFirst(rows: seq<UserToken>, email: string, i: nat)
    requires i < |rows| && rows[i].email == email
    requires forall j :: 0 <= j < i ==> rows[j].email != email
    ensures FirstWithEmail(rows, email) == Some(i)
  {
    if i > 0 {
      FirstWithEmailIsFirst(rows[1..], email, i - 1);
    }
  }
}
