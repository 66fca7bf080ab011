/** The OAuth token service: provider dispatch, the token table keyed by
    (provider, userId, email) with its upsert, the OAuth callback, and the
    read path that keeps live tokens, refreshes expired ones and skips rows
    it cannot read. The provider's OAuth client, the organisation's client
    credentials and the database's id generator are collaborators. */
module OAuthTokens {

  import opened Wrappers
  import Encryption
  import Vault

  /** `OAuthTokenProvider`; `Other` stands for any value but GOOGLE. */
  datatype Provider = Google | Other(name: string)

  function ProviderName(p: Provider): string {
    match p
    case Google => "GOOGLE"
    case Other(n) => n
  }

  datatype TokenKey = TokenKey(provider: Provider, userId: string, email: string)

  /** A row of the token table; `data` holds the encrypted payload and may be null. */
  datatype TokenRow = TokenRow(id: string, provider: Provider, userId: string, email: string, data: Option<string>)

  function KeyOf(r: TokenRow): TokenKey {
    TokenKey(r.provider, r.userId, r.email)
  }

  /** What `upsertToken` is given: the key fields and the plaintext payload. */
  datatype TokenEntity = TokenEntity(provider: Provider, userId: string, email: string, data: Vault.TokenPayload)

  datatype ClientCredentials = ClientCredentials(clientId: string, clientSecret: string)

  /** The provider's verdict on a stored token. */
  datatype TokenInfo = TokenInfo(isExistingTokenValid: bool, refreshedToken: Option<Vault.TokenPayload>)

  /** What the provider returns for an authorization-code redirect. */
  datatype Redirect = Redirect(tokens: Vault.TokenPayload, email: string)

  datatype OAuthAdapter = GoogleDriveOAuthAdapter

  /** The service's collaborators: the vault, the organisation's client
      credentials per provider, the Google OAuth client's three calls, and the
      ids the database gives new rows. */
  datatype Collaborators = Collaborators(
    vault: Vault.Config,
    orgClientCredentials: (string, Provider) -> Option<ClientCredentials>,
    redirectUrl: ClientCredentials -> string,
    tokensFromRedirect: (ClientCredentials, string) -> Result<Redirect, Error>,
    tokenInfo: (ClientCredentials, Vault.TokenPayload) -> Result<TokenInfo, Error>,
    newRowId: nat -> string)

  function NoAdapterMessage(provider: Provider): string {
    "No OAuthAdapter found for " + ProviderName(provider)
  }

  function MissingCredentialsMessage(orgId: string, provider: Provider): string {
    "Missing client credentials for " + ProviderName(provider) + ", for org " + orgId
  }

  /** `getOAuthAdapter`: the Google adapter for GOOGLE, a thrown error otherwise. */
  function GetOAuthAdapter(provider: Provider): (r: Result<OAuthAdapter, Error>)
    ensures r.Success? <==> provider == Google
    ensures r.Failure? ==> r.error == Thrown(NoAdapterMessage(provider))
  {
    match provider
    case Google => Success(GoogleDriveOAuthAdapter)
    case Other(_) => Failure(Thrown(NoAdapterMessage(provider)))
  }

  /** `getOrgClientCredentialData`: the organisation's credentials, or a thrown error when it has none. */
  function GetOrgClientCredentialData(env: Collaborators, orgId: string, provider: Provider): (r: Result<ClientCredentials, Error>)
    ensures r.Success? <==> env.orgClientCredentials(orgId, provider).Some?
    ensures r.Success? ==> r.value == env.orgClientCredentials(orgId, provider).value
    ensures r.Failure? ==> r.error == Thrown(MissingCredentialsMessage(orgId, provider))
  {
    match env.orgClientCredentials(orgId, provider)
    case None => Failure(Thrown(MissingCredentialsMessage(orgId, provider)))
    case Some(c) => Success(c)
  }

  /** `getOAuthRedirectUrl`: the adapter is resolved before the credentials are looked up. */
  function GetOAuthRedirectUrl(env: Collaborators, orgId: string, provider: Provider): (r: Result<string, Error>)
    ensures provider != Google ==> r == Failure(Thrown(NoAdapterMessage(provider)))
    ensures provider == Google && env.orgClientCredentials(orgId, provider).None? ==>
              r == Failure(Thrown(MissingCredentialsMessage(orgId, provider)))
    ensures r.Success? ==> r.value == env.redirectUrl(env.orgClientCredentials(orgId, provider).value)
  {
    match GetOAuthAdapter(provider)
    case Failure(e) => Failure(e)
    case Success(_) =>
      match GetOrgClientCredentialData(env, orgId, provider)
      case Failure(e) => Failure(e)
      case Success(c) => Success(env.redirectUrl(c))
  }

  // ---------------------------------------------------------------------------
  // The token table and its upsert

  /** The table's rows in stored order, and the counter behind new row ids. */
  datatype Table = Table(rows: seq<TokenRow>, nextId: nat)

  /** One stored token per linked account. */
  ghost predicate UniqueKeys(rows: seq<TokenRow>) {
    forall i, j :: 0 <= i < j < |rows| ==> KeyOf(rows[i]) != KeyOf(rows[j])
  }

  /** The first row at or after `from` with the given key. */
  function FindKey(rows: seq<TokenRow>, key: TokenKey, from: nat): (r: Option<nat>)
    requires from <= |rows|
    ensures r.Some? ==> from <= r.value < |rows| && KeyOf(rows[r.value]) == key
    ensures r.Some? ==> forall j :: from <= j < r.value ==> KeyOf(rows[j]) != key
    ensures r.None? ==> forall j :: from <= j < |rows| ==> KeyOf(rows[j]) != key
    decreases |rows| - from
  {
    if from == |rows| then None
    else if KeyOf(rows[from]) == key then Some(from)
    else FindKey(rows, key, from + 1)
  }

  predicate HasKey(rows: seq<TokenRow>, key: TokenKey) {
    FindKey(rows, key, 0).Some?
  }

  /** The database's upsert on (provider, userId, email): replace only `data`
      of the existing row, or create a row with all four fields. */
  function Upsert(t: Table, newRowId: nat -> string, key: TokenKey, stored: string): Table {
    match FindKey(t.rows, key, 0)
    case Some(i) => Table(t.rows[i := t.rows[i].(data := Some(stored))], t.nextId)
    case None =>
      Table(t.rows + [TokenRow(newRowId(t.nextId), key.provider, key.userId, key.email, Some(stored))], t.nextId + 1)
  }

  /** After an upsert the table still has one row per key, exactly one row
      has the upserted key and it holds the new data; all other rows are as
      before, and a row is added only when the key was new. */
  lemma UpsertStores(t: Table, newRowId: nat -> string, key: TokenKey, stored: string)
    requires UniqueKeys(t.rows)
    ensures var u := Upsert(t, newRowId, key, stored);
            && UniqueKeys(u.rows)
            && |u.rows| == |t.rows| + (if HasKey(t.rows, key) then 0 else 1)
            && HasKey(u.rows, key)
            && u.rows[FindKey(u.rows, key, 0).value].data == Some(stored)
            && (forall j :: 0 <= j < |t.rows| ==> KeyOf(u.rows[j]) == KeyOf(t.rows[j]) && u.rows[j].id == t.rows[j].id)
            && (forall j :: 0 <= j < |t.rows| && KeyOf(t.rows[j]) != key ==> u.rows[j] == t.rows[j])
  {
    var u := Upsert(t, newRowId, key, stored);
    match FindKey(t.rows, key, 0)
    case Some(i) =>
      assert KeyOf(u.rows[i]) == key;
      assert FindKey(u.rows, key, 0) == Some(i);
    case None =>
      var n := |t.rows|;
      assert KeyOf(u.rows[n]) == key;
      assert forall j :: 0 <= j < n ==> u.rows[j] == t.rows[j];
      assert FindKey(u.rows, key, 0) == Some(n);
  }

  /** Upserting twice for the same key is the same as upserting only the
      second payload: one row, holding the second write. */
  lemma UpsertTwice(t: Table, newRowId: nat -> string, key: TokenKey, first: string, second: string)
    ensures Upsert(Upsert(t, newRowId, key, first), newRowId, key, second) == Upsert(t, newRowId, key, second)
  {
    var u := Upsert(t, newRowId, key, first);
    match FindKey(t.rows, key, 0)
    case Some(i) =>
      assert forall j :: 0 <= j < |u.rows| ==> KeyOf(u.rows[j]) == KeyOf(t.rows[j]);
      assert FindKey(u.rows, key, 0) == Some(i);
      assert u.rows[i := u.rows[i].(data := Some(second))] == t.rows[i := t.rows[i].(data := Some(second))];
    case None =>
      var n := |t.rows|;
      assert KeyOf(u.rows[n]) == key;
      assert FindKey(u.rows, key, 0) == Some(n);
      assert u.rows[n := u.rows[n].(data := Some(second))]
          == t.rows + [TokenRow(newRowId(t.nextId), key.provider, key.userId, key.email, Some(second))];
  }

  // ---------------------------------------------------------------------------
  // The read path of getOAuthTokens

  /** `xs` is `ys` with some elements left out, order kept. */
  ghost predicate IsSubsequence<T>(xs: seq<T>, ys: seq<T>)
    decreases |ys|
  {
    if ys == [] then xs == []
    else
      || IsSubsequence(xs, ys[..|ys| - 1])
      || (xs != [] && xs[|xs| - 1] == ys[|ys| - 1] && IsSubsequence(xs[..|xs| - 1], ys[..|ys| - 1]))
  }

  /** The rows `findMany({provider, userId})` returns, in stored order. */
  function Candidates(rows: seq<TokenRow>, provider: Provider, userId: string): (r: seq<TokenRow>)
    ensures forall row :: row in r <==> row in rows && row.provider == provider && row.userId == userId
    ensures IsSubsequence(r, rows)
    decreases |rows|
  {
    if rows == [] then []
    else
      var n := |rows| - 1;
      var init := Candidates(rows[..n], provider, userId);
      assert rows == rows[..n] + [rows[n]];
      if rows[n].provider == provider && rows[n].userId == userId then
        assert (init + [rows[n]])[..|init|] == init;
        init + [rows[n]]
      else init
  }

  /** What the loop body does with one candidate row. */
  datatype Verdict = Drop | Keep | Refresh(stored: string)

  /** The loop body of `getOAuthTokens` for one row, `nonce` being the one a
      re-encryption would draw: rows with null data, rows that fail to decrypt
      or parse, rows the provider call fails on, and invalid rows without a
      refresh are dropped; valid rows are kept; invalid rows with a refresh are
      re-stored and kept, unless re-storing throws. */
  function Judge(env: Collaborators, creds: ClientCredentials, row: TokenRow, nonce: Encryption.Nonce): Verdict {
    match row.data
    case None => Drop
    case Some(stored) =>
      match Vault.Open(env.vault, stored)
      case Failure(_) => Drop
      case Success(payload) =>
        match env.tokenInfo(creds, payload)
        case Failure(_) => Drop
        case Success(info) =>
          if info.isExistingTokenValid then Keep
          else
            match info.refreshedToken
            case None => Drop
            case Some(refreshed) =>
              match Vault.Seal(env.vault, nonce, refreshed)
              case Failure(_) => Drop
              case Success(s) => Refresh(s)
  }

  /** The loop body's verdict on each candidate, candidate `i` drawing `nonces(i)`. */
  function Verdicts(env: Collaborators, creds: ClientCredentials, cands: seq<TokenRow>, nonces: nat -> Encryption.Nonce): (vs: seq<Verdict>)
    ensures |vs| == |cands|
    ensures forall i :: 0 <= i < |cands| ==> vs[i] == Judge(env, creds, cands[i], nonces(i))
  {
    seq(|cands|, i requires 0 <= i < |cands| => Judge(env, creds, cands[i], nonces(i)))
  }

  /** The rows `getOAuthTokens` returns: the candidates not dropped, in order. */
  function Kept(cands: seq<TokenRow>, vs: seq<Verdict>): seq<TokenRow>
    requires |vs| == |cands|
    decreases |cands|
  {
    if cands == [] then []
    else
      var n := |cands| - 1;
      Kept(cands[..n], vs[..n]) + (if vs[n].Drop? then [] else [cands[n]])
  }

  /** The table after the re-stores `getOAuthTokens` performs, in candidate order. */
  function Refreshed(newRowId: nat -> string, t: Table, cands: seq<TokenRow>, vs: seq<Verdict>): Table
    requires |vs| == |cands|
    decreases |cands|
  {
    if cands == [] then t
    else
      var n := |cands| - 1;
      var before := Refreshed(newRowId, t, cands[..n], vs[..n]);
      match vs[n]
      case Refresh(s) => Upsert(before, newRowId, KeyOf(cands[n]), s)
      case _ => before
  }

  /** One more candidate: how `Kept` and `Refreshed` grow with its verdict. */
  lemma ScanStep(newRowId: nat -> string, t: Table, cands: seq<TokenRow>, vs: seq<Verdict>, i: nat)
    requires |vs| == |cands| && i < |cands|
    ensures Kept(cands[..i + 1], vs[..i + 1]) == Kept(cands[..i], vs[..i]) + (if vs[i].Drop? then [] else [cands[i]])
    ensures Refreshed(newRowId, t, cands[..i + 1], vs[..i + 1])
              == match vs[i]
                 case Refresh(s) => Upsert(Refreshed(newRowId, t, cands[..i], vs[..i]), newRowId, KeyOf(cands[i]), s)
                 case _ => Refreshed(newRowId, t, cands[..i], vs[..i])
  {
    assert cands[..i + 1][..i] == cands[..i];
    assert vs[..i + 1][..i] == vs[..i];
  }

  /** An expired token that decrypts and parses and comes with a refresh is
      re-stored with the refreshed payload and kept: the re-encryption cannot
      fail for want of a key, since reading it needed the key too. */
  lemma RefreshNeverFailsToSeal(env: Collaborators, creds: ClientCredentials, row: TokenRow, nonce: Encryption.Nonce, refreshed: Vault.TokenPayload)
    requires row.data.Some? && Vault.Open(env.vault, row.data.value).Success?
    requires env.tokenInfo(creds, Vault.Open(env.vault, row.data.value).value) == Success(TokenInfo(false, Some(refreshed)))
    ensures Judge(env, creds, row, nonce) == Refresh(Vault.Seal(env.vault, nonce, refreshed).value)
  {
    Vault.OpenedImpliesSealable(env.vault, row.data.value, nonce, refreshed);
  }

  /** The result is a subsequence of the candidates, in their order. */
  lemma {:induction false} KeptIsSubsequence(cands: seq<TokenRow>, vs: seq<Verdict>)
    requires |vs| == |cands|
    ensures IsSubsequence(Kept(cands, vs), cands)
    decreases |cands|
  {
    if cands != [] {
      var n := |cands| - 1;
      var init := Kept(cands[..n], vs[..n]);
      KeptIsSubsequence(cands[..n], vs[..n]);
      if vs[n].Drop? {
        assert Kept(cands, vs) == init;
        assert IsSubsequence(init, cands[..|cands| - 1]);
      } else {
        var kept := init + [cands[n]];
        assert Kept(cands, vs) == kept;
        assert kept[..|kept| - 1] == init;
        assert kept[|kept| - 1] == cands[|cands| - 1];
      }
    }
  }

  /** Every kept row is a candidate. */
  lemma {:induction false} KeptAreCandidates(cands: seq<TokenRow>, vs: seq<Verdict>)
    requires |vs| == |cands|
    ensures forall row :: row in Kept(cands, vs) ==> row in cands
    decreases |cands|
  {
    if cands != [] {
      var n := |cands| - 1;
      KeptAreCandidates(cands[..n], vs[..n]);
      assert cands == cands[..n] + [cands[n]];
    }
  }

  /** For candidates without repeats, candidate `j` is returned exactly when
      its verdict is not `Drop`. */
  lemma {:induction false} KeptExactly(cands: seq<TokenRow>, vs: seq<Verdict>, j: nat)
    requires |vs| == |cands|
    requires forall a, b :: 0 <= a < b < |cands| ==> cands[a] != cands[b]
    requires j < |cands|
    ensures cands[j] in Kept(cands, vs) <==> !vs[j].Drop?
    decreases |cands|
  {
    var n := |cands| - 1;
    var init := cands[..n];
    KeptAreCandidates(init, vs[..n]);
    if j < n {
      KeptExactly(init, vs[..n], j);
      assert init[j] == cands[j];
      assert cands[n] != cands[j];
    } else {
      assert cands[n] !in init;
    }
  }

  /** The re-stores only ever replace `data` of existing rows: every row
      keeps its place, key and id, no row is added or removed, and a row no
      candidate refreshed is left exactly as it was. */
  lemma {:induction false} RefreshedShape(newRowId: nat -> string, t: Table, cands: seq<TokenRow>, vs: seq<Verdict>)
    requires |vs| == |cands|
    requires UniqueKeys(t.rows)
    requires forall i :: 0 <= i < |cands| ==> HasKey(t.rows, KeyOf(cands[i]))
    ensures var r := Refreshed(newRowId, t, cands, vs);
            && UniqueKeys(r.rows)
            && |r.rows| == |t.rows| && r.nextId == t.nextId
            && (forall j :: 0 <= j < |t.rows| ==> KeyOf(r.rows[j]) == KeyOf(t.rows[j]) && r.rows[j].id == t.rows[j].id)
            && (forall j :: 0 <= j < |t.rows| && Untouched(cands, vs, KeyOf(t.rows[j])) ==> r.rows[j] == t.rows[j])
    decreases |cands|
  {
    if cands != [] {
      var n := |cands| - 1;
      RefreshedShape(newRowId, t, cands[..n], vs[..n]);
      var before := Refreshed(newRowId, t, cands[..n], vs[..n]);
      forall j | 0 <= j < |t.rows| && Untouched(cands, vs, KeyOf(t.rows[j]))
        ensures Untouched(cands[..n], vs[..n], KeyOf(t.rows[j]))
      {
        forall i | 0 <= i < n && KeyOf(cands[..n][i]) == KeyOf(t.rows[j]) ensures !vs[..n][i].Refresh? {
          assert cands[..n][i] == cands[i];
        }
      }
      match vs[n]
      case Refresh(s) =>
        var key := KeyOf(cands[n]);
        var p := FindKey(t.rows, key, 0).value;
        assert KeyOf(before.rows[p]) == key;
        assert HasKey(before.rows, key);
        UpsertStores(before, newRowId, key, s);
      case _ =>
    }
  }

  /** No candidate with this key was refreshed. */
  ghost predicate Untouched(cands: seq<TokenRow>, vs: seq<Verdict>, key: TokenKey)
    requires |vs| == |cands|
  {
    forall i :: 0 <= i < |cands| && KeyOf(cands[i]) == key ==> !vs[i].Refresh?
  }

  /** One re-store for a key leaves the row of any other key where it was, with its data. */
  lemma UpsertElsewhere(t: Table, newRowId: nat -> string, other: TokenKey, stored: string, key: TokenKey)
    requires UniqueKeys(t.rows) && HasKey(t.rows, other) && HasKey(t.rows, key) && other != key
    ensures var u := Upsert(t, newRowId, other, stored);
            var p := FindKey(t.rows, key, 0).value;
            && FindKey(u.rows, key, 0) == Some(p)
            && u.rows[p] == t.rows[p]
  {
    var u := Upsert(t, newRowId, other, stored);
    var p := FindKey(t.rows, key, 0).value;
    UpsertStores(t, newRowId, other, stored);
    assert u.rows[p] == t.rows[p];
    assert forall j :: 0 <= j < p ==> KeyOf(u.rows[j]) != key;
  }

  /** A candidate the loop re-stored holds the refreshed data afterwards,
      when no two candidates share a key. */
  lemma {:induction false} RefreshedStores(newRowId: nat -> string, t: Table, cands: seq<TokenRow>, vs: seq<Verdict>, i: nat)
    requires |vs| == |cands|
    requires UniqueKeys(t.rows) && UniqueKeys(cands)
    requires forall k :: 0 <= k < |cands| ==> HasKey(t.rows, KeyOf(cands[k]))
    requires i < |cands| && vs[i].Refresh?
    ensures var r := Refreshed(newRowId, t, cands, vs);
            && HasKey(r.rows, KeyOf(cands[i]))
            && r.rows[FindKey(r.rows, KeyOf(cands[i]), 0).value].data == Some(vs[i].stored)
    decreases |cands|
  {
    var n := |cands| - 1;
    var key := KeyOf(cands[i]);
    RefreshedShape(newRowId, t, cands[..n], vs[..n]);
    var before := Refreshed(newRowId, t, cands[..n], vs[..n]);
    var p := FindKey(t.rows, key, 0).value;
    assert KeyOf(before.rows[p]) == key;
    assert HasKey(before.rows, key);
    if i == n {
      UpsertStores(before, newRowId, key, vs[n].stored);
    } else {
      assert UniqueKeys(cands[..n]);
      RefreshedStores(newRowId, t, cands[..n], vs[..n], i);
      assert KeyOf(cands[n]) != key;
      if vs[n].Refresh? {
        var q := FindKey(t.rows, KeyOf(cands[n]), 0).value;
        assert KeyOf(before.rows[q]) == KeyOf(cands[n]);
        UpsertElsewhere(before, newRowId, KeyOf(cands[n]), vs[n].stored, key);
      }
    }
  }

  // ---------------------------------------------------------------------------
  // The service

  class OAuthTokenService {
    const env: Collaborators
    var rows: seq<TokenRow>
    var nextId: nat

    ghost predicate Valid()
      reads this
    {
      UniqueKeys(rows)
    }

    function State(): Table
      reads this
    {
      Table(rows, nextId)
    }

    constructor (env: Collaborators, rows: seq<TokenRow>, nextId: nat)
      requires UniqueKeys(rows)
      ensures Valid() && this.env == env && State() == Table(rows, nextId)
    {
      this.env := env;
      this.rows := rows;
      this.nextId := nextId;
    }

    /** `upsertToken`: encrypt the payload (throwing when the key is unset,
        before the table is touched), then upsert on (provider, userId, email). */
    method UpsertToken(token: TokenEntity, nonce: Encryption.Nonce) returns (r: Result<(), Error>)
      requires Valid()
      modifies this
      ensures Valid()
      ensures var sealed := Vault.Seal(env.vault, nonce, token.data);
              && (sealed.Failure? ==> r == Failure(sealed.error) && State() == old(State()))
              && (sealed.Success? ==>
                    && r == Success(())
                    && State() == Upsert(old(State()), env.newRowId, TokenKey(token.provider, token.userId, token.email), sealed.value))
    {
      var sealed := Vault.Seal(env.vault, nonce, token.data);
      if sealed.Failure? {
        return Failure(sealed.error);
      }
      var key := TokenKey(token.provider, token.userId, token.email);
      ghost var before := State();
      UpsertStores(before, env.newRowId, key, sealed.value);
      var i := 0;
      while i < |rows| && KeyOf(rows[i]) != key
        invariant 0 <= i <= |rows|
        invariant forall j :: 0 <= j < i ==> KeyOf(rows[j]) != key
      {
        i := i + 1;
      }
      if i < |rows| {
        rows := rows[i := rows[i].(data := Some(sealed.value))];
      } else {
        rows := rows + [TokenRow(env.newRowId(nextId), key.provider, key.userId, key.email, Some(sealed.value))];
        nextId := nextId + 1;
      }
      return Success(());
    }

    /** `handleOAuthCallback`: resolve the adapter, then the credentials,
        exchange the redirect for tokens and the account's email, and upsert
        exactly one token for (provider, userId, that email). */
    method HandleOAuthCallback(orgId: string, userId: string, provider: Provider, searchParams: string, nonce: Encryption.Nonce)
      returns (r: Result<(), Error>)
      requires Valid()
      modifies this
      ensures Valid()
      ensures provider != Google ==> r == Failure(Thrown(NoAdapterMessage(provider))) && State() == old(State())
      ensures provider == Google && env.orgClientCredentials(orgId, provider).None? ==>
                r == Failure(Thrown(MissingCredentialsMessage(orgId, provider))) && State() == old(State())
      ensures provider == Google && env.orgClientCredentials(orgId, provider).Some? ==>
                var redirect := env.tokensFromRedirect(env.orgClientCredentials(orgId, provider).value, searchParams);
                && (redirect.Failure? ==> r == Failure(redirect.error) && State() == old(State()))
                && (redirect.Success? && !Encryption.KeySet(env.vault.key) ==>
                      r == Failure(Thrown(Encryption.KeyNotSetMessage)) && State() == old(State()))
                && (redirect.Success? && Encryption.KeySet(env.vault.key) ==>
                      var sealed := Vault.Seal(env.vault, nonce, redirect.value.tokens).value;
                      r == Success(()) &&
                      State() == Upsert(old(State()), env.newRowId, TokenKey(provider, userId, redirect.value.email), sealed))
    {
      var adapter := GetOAuthAdapter(provider);
      if adapter.Failure? {
        return Failure(adapter.error);
      }
      var creds := GetOrgClientCredentialData(env, orgId, provider);
      if creds.Failure? {
        return Failure(creds.error);
      }
      var redirect := env.tokensFromRedirect(creds.value, searchParams);
      if redirect.Failure? {
        return Failure(redirect.error);
      }
      r := UpsertToken(TokenEntity(provider, userId, redirect.value.email, redirect.value.tokens), nonce);
    }

    /** The body of the `getOAuthTokens` loop for one row: whether the row
        is returned, and the re-store of a refreshed token. */
    method CheckToken(creds: ClientCredentials, token: TokenRow, nonce: Encryption.Nonce) returns (keep: bool)
      requires Valid()
      modifies this
      ensures Valid()
      ensures var v := Judge(env, creds, token, nonce);
              && keep == !v.Drop?
              && State() == match v
                            case Refresh(s) => Upsert(old(State()), env.newRowId, KeyOf(token), s)
                            case _ => old(State())
    {
      if token.data.None? {
        return false;
      }
      var payload := Vault.Open(env.vault, token.data.value);
      if payload.Failure? {
        return false;  // decrypt or parse threw: logged and skipped
      }
      var info := env.tokenInfo(creds, payload.value);
      if info.Failure? {
        return false;  // the provider call threw: logged and skipped
      }
      if info.value.isExistingTokenValid {
        return true;
      }
      if info.value.refreshedToken.None? {
        return false;
      }
      var stored := UpsertToken(TokenEntity(token.provider, token.userId, token.email, info.value.refreshedToken.value), nonce);
      return stored.Success?;
    }

    /** `getOAuthTokens`: credentials first, then the adapter; then each
        candidate row is judged in stored order, candidate `i` drawing
        `nonces(i)` if it is re-encrypted. */
    method GetOAuthTokens(orgId: string, userId: string, provider: Provider, nonces: nat -> Encryption.Nonce)
      returns (r: Result<seq<TokenRow>, Error>)
      requires Valid()
      modifies this
      ensures Valid()
      ensures env.orgClientCredentials(orgId, provider).None? ==>
                r == Failure(Thrown(MissingCredentialsMessage(orgId, provider))) && State() == old(State())
      ensures env.orgClientCredentials(orgId, provider).Some? && provider != Google ==>
                r == Failure(Thrown(NoAdapterMessage(provider))) && State() == old(State())
      ensures env.orgClientCredentials(orgId, provider).Some? && provider == Google ==>
                var creds := env.orgClientCredentials(orgId, provider).value;
                var cands := Candidates(old(rows), provider, userId);
                var verdicts := Verdicts(env, creds, cands, nonces);
                && r == Success(Kept(cands, verdicts))
                && State() == Refreshed(env.newRowId, old(State()), cands, verdicts)
    {
      var credsResult := GetOrgClientCredentialData(env, orgId, provider);
      if credsResult.Failure? {
        return Failure(credsResult.error);
      }
      var adapter := GetOAuthAdapter(provider);
      if adapter.Failure? {
        return Failure(adapter.error);
      }
      var creds := credsResult.value;
      var tokens := Candidates(rows, provider, userId);
      ghost var start := State();
      ghost var verdicts := Verdicts(env, creds, tokens, nonces);
      var validTokens: seq<TokenRow> := [];
      for i := 0 to |tokens|
        invariant Valid()
        invariant validTokens == Kept(tokens[..i], verdicts[..i])
        invariant State() == Refreshed(env.newRowId, start, tokens[..i], verdicts[..i])
      {
        ScanStep(env.newRowId, start, tokens, verdicts, i);
        var keep := CheckToken(creds, tokens[i], nonces(i));
        if keep {
          validTokens := validTokens + [tokens[i]];
        }
      }
      assert tokens[..|tokens|] == tokens;
      assert verdicts[..|tokens|] == verdicts;
      return Success(validTokens);
    }
  }
}
