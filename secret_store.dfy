/** The `totp_secrets` table (app/db.py): username is the primary key, writes
    are `INSERT OR REPLACE`, reads are a point lookup. The table is a map, so
    there is at most one secret per username by construction. */
module SecretStore {
  import opened Common

  /** `row[0] if row else None` for the row of `username`. */
  function Lookup(secrets: map<string, string>, username: string): (r: Option<string>)
    ensures r.Some? <==> username in secrets
    ensures r.Some? ==> r.value == secrets[username]
  {
    if username in secrets then Some(secrets[username]) else None
  }

  class TotpSecretStore {
    var secrets: map<string, string>

    /** A database on which `init_db` has just created the empty table. */
    constructor ()
      ensures secrets == map[]
    {
      secrets := map[];
    }

    /** `init_db`: `CREATE TABLE IF NOT EXISTS` leaves an existing table as it is. */
    method InitDb()
      modifies this
      ensures secrets == old(secrets)
    {
    }

    /** `store_totp_secret`: upsert, so the last write for a username wins and
        every other username keeps its secret. */
    method Store(username: string, secret: string)
      modifies this
      ensures secrets == old(secrets)[username := secret]
      ensures Lookup(secrets, username) == Some(secret)
      ensures forall u :: u != username ==> Lookup(secrets, u) == Lookup(old(secrets), u)
    {
      secrets := secrets[username := secret];
    }

    /** `get_totp_secret`: the stored secret, or None for a username never stored. */
    method Get(username: string) returns (r: Option<string>)
      ensures r == Lookup(secrets, username)
      ensures r.None? <==> username !in secrets
    {
      if username in secrets {
        r := Some(secrets[username]);
      } else {
        r := None;
      }
    }
  }

  /** The round trip that test_totp_secret.py exercises: initialise, store,
      read back. */
  method StoreThenRetrieve(store: TotpSecretStore, username: string, secret: string) returns (got: Option<string>)
    modifies store
    ensures got == Some(secret)
    ensures store.secrets == old(store.secrets)[username := secret]
  {
    store.InitDb();
    store.Store(username, secret);
    got := store.Get(username);
  }

  /** Two stores for the same username keep only the second: no versioning. */
  method OverwriteKeepsLast(store: TotpSecretStore, username: string, first: string, second: string) returns (got: Option<string>)
    modifies store
    ensures got == Some(second)
    ensures forall u :: u != username ==> Lookup(store.secrets, u) == Lookup(old(store.secrets), u)
  {
    store.Store(username, first);
    store.Store(username, second);
    got := store.Get(username);
  }
}
