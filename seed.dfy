/**
 * `GET /api/seed` (`src/app/api/seed/route.ts`): creates the demo administrator and
 * the demo user once. It uses a plain `PrismaClient`, so store errors reach its catch
 * block. The bcrypt hashes are parameters.
 */
module Seed {
  import opened Wrappers
  import opened Facade
  import opened Store
  import Auth

  const AdminEmail := "admin@meghcomm.store"
  const AdminPassword := "admin123456"
  const UserEmail := "user@meghcomm.store"
  const UserPassword := "user123456"

  datatype Credential = Credential(email: string, password: string)

  /** The three response bodies: `already_seeded`, `seeded` and `error`. */
  datatype SeedResponse =
    | AlreadySeeded(message: string, adminEmail: string)
    | Seeded(message: string, users: seq<Credential>)
    | SeedError(message: string)

  function HttpStatus(r: SeedResponse): (status: int)
    ensures status == 500 <==> r.SeedError?
    ensures status == 200 || status == 500
  {
    if r.SeedError? then 500 else 200
  }

  const AlreadySeededReply := AlreadySeeded("Database is already seeded with admin user", AdminEmail)
  const SeededReply := Seeded("Database seeded successfully",
    [Credential(AdminEmail, AdminPassword), Credential(UserEmail, UserPassword)])

  /** The outcome of one request against the store state `(online, t)`: the response and the new tables. */
  function SeedSpec(online: bool, t: Tables, adminHash: string, userHash: string): (SeedResponse, Tables) {
    if !online then (SeedError(Unreachable), t)
    else if AdminEmail in t.users then (AlreadySeededReply, t)
    else
      var t1 := WithUser(t, AdminEmail, "Workshop Admin", adminHash, "ADMIN");
      if UserEmail in t1.users then (SeedError(UniqueViolation), t1)
      else (SeededReply, WithUser(t1, UserEmail, "John Doe", userHash, "USER"))
  }

  /** The catch block's message: the error's own message. */
  function Reason<T>(r: Reply<T>): string {
    if r.Threw? then r.message else "Unknown error"
  }

  method SeedDatabase(db: Db, adminHash: string, userHash: string) returns (resp: SeedResponse)
    requires db.Valid()
    modifies db
    ensures db.online == old(db.online) && db.Valid()
    ensures (resp, db.tables) == SeedSpec(old(db.online), old(db.tables), adminHash, userHash)
  {
    var found := db.FindUser(AdminEmail);
    if found.Threw? {
      return SeedError(Reason(found));
    }
    if found.value.One? {
      return AlreadySeededReply;
    }
    var admin := db.CreateUser(AdminEmail, "Workshop Admin", adminHash, "ADMIN");
    if admin.Threw? {
      return SeedError(Reason(admin));
    }
    var user := db.CreateUser(UserEmail, "John Doe", userHash, "USER");
    if user.Threw? {
      return SeedError(Reason(user));
    }
    resp := Seeded("Database seeded successfully",
      [Credential(admin.value.row.email, AdminPassword), Credential(user.value.row.email, UserPassword)]);
  }

  /** Whatever the first request against a reachable store does, the administrator exists
      afterwards and a second request reports `already_seeded` and changes nothing. */
  lemma SeedIsIdempotent(t: Tables, h1: string, h2: string, h3: string, h4: string)
    ensures var t1 := SeedSpec(true, t, h1, h2).1;
      AdminEmail in t1.users && SeedSpec(true, t1, h3, h4) == (AlreadySeededReply, t1)
  {
    var t1 := SeedSpec(true, t, h1, h2).1;
    if AdminEmail !in t.users {
      assert AdminEmail in WithUser(t, AdminEmail, "Workshop Admin", h1, "ADMIN").users;
    }
  }

  /** Only the administrator's email is looked up: a store that already holds the demo user
      but no administrator gets the administrator inserted, then answers with the unique-key error. */
  lemma OnlyAdminIsChecked(t: Tables, adminHash: string, userHash: string)
    requires AdminEmail !in t.users && UserEmail in t.users
    ensures var (resp, t1) := SeedSpec(true, t, adminHash, userHash);
      resp == SeedError(UniqueViolation) && HttpStatus(resp) == 500
      && t1.users == t.users[AdminEmail := User(t.nextId, AdminEmail, "Workshop Admin", adminHash, "ADMIN")]
  {
    assert UserEmail in WithUser(t, AdminEmail, "Workshop Admin", adminHash, "ADMIN").users;
  }

  /** A fresh seed adds exactly the two demo accounts and lists their emails and passwords. */
  lemma FreshSeed(t: Tables, adminHash: string, userHash: string)
    requires AdminEmail !in t.users && UserEmail !in t.users
    ensures var (resp, t1) := SeedSpec(true, t, adminHash, userHash);
      resp.Seeded? && resp.users == [Credential(AdminEmail, AdminPassword), Credential(UserEmail, UserPassword)]
      && t1.users == t.users[AdminEmail := User(t.nextId, AdminEmail, "Workshop Admin", adminHash, "ADMIN")]
                            [UserEmail := User(t.nextId + 1, UserEmail, "John Doe", userHash, "USER")]
      && t1.customers == t.customers && t1.vehicles == t.vehicles && t1.vendors == t.vendors
      && t1.appointments == t.appointments
  {
    assert UserEmail !in WithUser(t, AdminEmail, "Workshop Admin", adminHash, "ADMIN").users;
  }

  /** After a fresh seed the administrator can sign in with the published password, and the
      session carries the `ADMIN` role. */
  lemma SeededAdminCanSignIn(db: Db, t: Tables, adminHash: string, userHash: string,
                             verify: (string, string) -> bool, production: bool)
    requires AdminEmail !in t.users && UserEmail !in t.users
    requires db.online && db.tables == SeedSpec(true, t, adminHash, userHash).1
    requires verify(AdminPassword, adminHash)
    ensures var resp := Auth.Login(Auth.Credentials(Some(AdminEmail), Some(AdminPassword)), db, verify, production);
      resp.status == 200 && resp.body.UserBody? && resp.body.user.role == "ADMIN"
  {
    FreshSeed(t, adminHash, userHash);
  }
}
