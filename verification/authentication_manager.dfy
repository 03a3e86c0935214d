/**
 * Access binding: a multimap from a caller token to the command identifiers
 * that token may query. Bind appends in place; HasAccess is a lookup.
 */
module Authentication {
  import opened Models

  /** Token -> identifiers bound to it, in binding order (duplicates allowed). */
  type AccessMap = map<string, seq<Guid>>

  /** The answer HasAccess gives for a given access map. */
  predicate Granted(access: AccessMap, token: string, id: Guid)
  {
    token in access && id in access[token]
  }

  /** The access map after Bind(token, id): an empty list is created if needed, then id is appended. */
  function Bound(access: AccessMap, token: string, id: Guid): (r: AccessMap)
    ensures r.Keys == access.Keys + {token}
    ensures forall t :: t in access && t != token ==> r[t] == access[t]
    ensures token in access ==> r[token] == access[token] + [id]
    ensures token !in access ==> r[token] == [id]
  {
    access[token := (if token in access then access[token] else []) + [id]]
  }

  /** A token that was never bound has access to nothing. */
  lemma NeverBoundDenied(access: AccessMap, token: string, id: Guid)
    requires token !in access
    ensures !Granted(access, token, id)
  {
  }

  /** After Bind(t, id), HasAccess(t, id) holds. */
  lemma BindGrants(access: AccessMap, token: string, id: Guid)
    ensures Granted(Bound(access, token, id), token, id)
  {
  }

  /** Bind never removes a binding: access only grows. */
  lemma BindMonotone(access: AccessMap, token: string, id: Guid, t: string, x: Guid)
    requires Granted(access, t, x)
    ensures Granted(Bound(access, token, id), t, x)
  {
  }

  /** Bind(token, ...) leaves HasAccess of every other token as it was. */
  lemma BindIsolated(access: AccessMap, token: string, id: Guid, t: string, x: Guid)
    requires t != token
    ensures Granted(Bound(access, token, id), t, x) == Granted(access, t, x)
  {
  }

  /** Binding the same pair a second time changes no answer of HasAccess. */
  lemma BindTwiceSameAnswers(access: AccessMap, token: string, id: Guid, t: string, x: Guid)
    ensures Granted(Bound(Bound(access, token, id), token, id), t, x)
         == Granted(Bound(access, token, id), t, x)
  {
    var once := Bound(access, token, id);
    var twice := Bound(once, token, id);
    if t == token {
      assert twice[token] == once[token] + [id];
      assert id in once[token];
    }
  }

  /** The access map built by binding each pair of `bindings` in order, starting empty. */
  function Replay(bindings: seq<(string, Guid)>): AccessMap
  {
    if bindings == [] then map[]
    else
      var last := bindings[|bindings| - 1];
      Bound(Replay(bindings[..|bindings| - 1]), last.0, last.1)
  }

  /** HasAccess(t, x) after a history of binds holds exactly when (t, x) was bound at some point. */
  lemma {:induction false} ReplayGrantsExactly(bindings: seq<(string, Guid)>, t: string, x: Guid)
    ensures Granted(Replay(bindings), t, x) <==> (t, x) in bindings
  {
    if bindings != [] {
      var prefix := bindings[..|bindings| - 1];
      var last := bindings[|bindings| - 1];
      ReplayGrantsExactly(prefix, t, x);
      assert bindings == prefix + [last];
      if t == last.0 {
        var before := Replay(prefix);
        var seqBefore := if t in before then before[t] else [];
        assert Replay(bindings)[t] == seqBefore + [last.1];
        assert x in seqBefore <==> Granted(before, t, x);
      } else {
        BindIsolated(Replay(prefix), last.0, last.1, t, x);
      }
    }
  }

  class AuthenticationManager
  {
    var access: AccessMap

    constructor ()
      ensures access == map[]
    {
      access := map[];
    }

    /** Stub authentication: every token is accepted. */
    function Authenticate(token: string): (ok: bool)
      ensures ok
    {
      true
    }

    /** True iff id is in the list bound to token; false for an unknown token. */
    function HasAccess(token: string, id: Guid): (ok: bool)
      reads this
      ensures token !in access ==> !ok
      ensures token in access ==> (ok <==> exists k :: 0 <= k < |access[token]| && access[token][k] == id)
    {
      Granted(access, token, id)
    }

    /** Appends id to token's list, creating the list when the token is new. */
    method Bind(token: string, id: Guid)
      modifies this
      ensures access == Bound(old(access), token, id)
      ensures HasAccess(token, id)
    {
      var ids := if token in access then access[token] else [];
      access := access[token := ids + [id]];
    }
  }
}
