/**
 * The in-memory user store: a list of users that `save` appends to and
 * that the lookups search front to back.
 */
module UserRepositories {
  import opened Core
  import opened Users

  /** The position of the first `key` in `keys` (what `Array.prototype.find` stops at). */
  function FirstIndexOf<T(==)>(keys: seq<T>, key: T): (r: Option<nat>)
    ensures r.None? <==> key !in keys
    ensures r.Some? ==> r.value < |keys| && keys[r.value] == key && key !in keys[..r.value]
  {
    if keys == [] then None
    else if keys[0] == key then Some(0)
    else match FirstIndexOf(keys[1..], key)
      case None => None
      case Some(i) =>
        assert keys[..i + 1] == [keys[0]] + keys[1..][..i];
        Some(i + 1)
  }

  /** Appending a key leaves the first position of a key already present unchanged. */
  lemma {:induction false} FirstIndexOfAppend<T>(keys: seq<T>, k: T, key: T)
    ensures FirstIndexOf(keys + [k], key)
            == if key in keys then FirstIndexOf(keys, key)
               else if key == k then Some(|keys|)
               else None
  {
    if keys != [] {
      assert (keys + [k])[1..] == keys[1..] + [k];
      FirstIndexOfAppend(keys[1..], k, key);
    }
  }

  /** The emails of `users`, in order. */
  function EmailsOf(users: seq<User>): (r: seq<string>)
    reads users
    ensures |r| == |users| && forall i :: 0 <= i < |users| ==> r[i] == users[i].email
  {
    if users == [] then [] else [users[0].email] + EmailsOf(users[1..])
  }

  /** The tax identifiers of `users`, in order. */
  function TaxIdsOf(users: seq<User>): (r: seq<Option<string>>)
    reads users
    ensures |r| == |users| && forall i :: 0 <= i < |users| ==> r[i] == users[i].taxId
  {
    if users == [] then [] else [users[0].taxId] + TaxIdsOf(users[1..])
  }

  /** The emails after an append are the emails before, then the new user's. */
  lemma EmailsOfAppend(users: seq<User>, user: User)
    ensures EmailsOf(users + [user]) == EmailsOf(users) + [user.email]
  {
  }

  /** No email occurs twice in `keys`. */
  predicate Distinct(keys: seq<string>) {
    forall i, j :: 0 <= i < j < |keys| ==> keys[i] != keys[j]
  }

  /** Adding a key that is not present yet keeps the keys distinct. */
  lemma DistinctAppend(keys: seq<string>, k: string)
    requires Distinct(keys) && k !in keys
    ensures Distinct(keys + [k])
  {
    var s := keys + [k];
    forall i, j | 0 <= i < j < |s| ensures s[i] != s[j] {
      if j == |keys| {
        assert s[i] == keys[i];
      }
    }
  }

  class InMemoryUserRepository {
    var items: seq<User>

    constructor ()
      ensures items == []
    {
      items := [];
    }

    /** `findByTaxId`: the first stored user with that tax identifier, or none. */
    function FindByTaxId(taxId: string): (r: Option<User>)
      reads this, items
      ensures r.None? <==> forall i :: 0 <= i < |items| ==> items[i].taxId != Some(taxId)
      ensures r.Some? ==> exists i :: 0 <= i < |items| && items[i] == r.value
                                      && r.value.taxId == Some(taxId)
                                      && forall j :: 0 <= j < i ==> items[j].taxId != Some(taxId)
    {
      var keys := TaxIdsOf(items);
      match FirstIndexOf(keys, Some(taxId))
      case None => None
      case Some(i) =>
        assert forall j :: 0 <= j < i ==> keys[..i][j] == keys[j];
        Some(items[i])
    }

    /** `findByEmail`: the first stored user with that email, or none. */
    function FindByEmail(email: string): (r: Option<User>)
      reads this, items
      ensures r.None? <==> forall i :: 0 <= i < |items| ==> items[i].email != email
      ensures r.Some? ==> exists i :: 0 <= i < |items| && items[i] == r.value
                                      && r.value.email == email
                                      && forall j :: 0 <= j < i ==> items[j].email != email
    {
      var keys := EmailsOf(items);
      match FirstIndexOf(keys, email)
      case None => None
      case Some(i) =>
        assert forall j :: 0 <= j < i ==> keys[..i][j] == keys[j];
        Some(items[i])
    }

    /** Every stored user has an email of its own. */
    predicate EmailsUnique()
      reads this, items
    {
      Distinct(EmailsOf(items))
    }

    /**
     * `save`: appends the user; the earlier entries stay as they were, and
     * the user is now found by its email unless an earlier entry shares it.
     */
    method Save(user: User)
      modifies this
      ensures items == old(items) + [user]
      ensures FindByEmail(user.email).Some? && FindByEmail(user.email).value.email == user.email
      ensures old(FindByEmail(user.email)).None? ==> FindByEmail(user.email) == Some(user)
      ensures old(EmailsUnique()) && old(FindByEmail(user.email)).None? ==> EmailsUnique()
    {
      ghost var before := items;
      items := items + [user];
      assert items[|items| - 1].email == user.email;
      EmailsOfAppend(before, user);
      if Distinct(EmailsOf(before)) && user.email !in EmailsOf(before) {
        DistinctAppend(EmailsOf(before), user.email);
      }
    }
  }
}
