/** The authentication controller: the landlord registration with its duplicate-phone
    check, and the two login decision cascades. Hashing, hash comparison and token
    signing are outside the model: the hash and the comparison are inputs, and a
    signed token is represented by the claim it carries. */
module Auth {
  import opened Common
  import opened Store
  import Contracts

  datatype Role = TenantRole | LandlordRole

  /** The payload of a signed token: the account id and the login path's role. */
  datatype Claim = Claim(id: int, role: Role)

  /** A successful login: the token's claim and the name shown. */
  datatype Session = Session(claim: Claim, name: string)

  // ---------------------------------------------------------------------------
  // loginTenant

  /** The checks `loginTenant` makes on the tenant row found by phone, in order: a
      deactivated account is 403, a missing stored password 400, a different
      password 401; only then is a tenant token issued. */
  function TenantDecision(id: int, t: Tenant, password: Option<string>): (r: Result<Session>)
    ensures !t.isActive ==> r == Err(Error(403, "Tài khoản đã bị khóa do không còn hợp đồng thuê hoạt động."))
    ensures t.isActive && !Truthy(t.plainPassword) ==> r == Err(Error(400, "Tài khoản chưa có mật khẩu."))
    ensures r.Ok? <==> t.isActive && Truthy(t.plainPassword) && password == t.plainPassword
    ensures r.Ok? ==> r.value == Session(Claim(id, TenantRole), t.fullName)
    ensures r.Err? ==> r.error.status in {400, 401, 403}
  {
    if !t.isActive then Err(Error(403, "Tài khoản đã bị khóa do không còn hợp đồng thuê hoạt động."))
    else if !Truthy(t.plainPassword) then Err(Error(400, "Tài khoản chưa có mật khẩu."))
    else if password != t.plainPassword then Err(Error(401, "Sai mật khẩu"))
    else Ok(Session(Claim(id, TenantRole), t.fullName))
  }

  /** `loginTenant`: the phone selects a tenant row (the first one the query returns);
      no row is 401, otherwise the row decides. */
  method LoginTenant(db: Db, phone: string, password: Option<string>) returns (r: Result<Session>)
    ensures (forall k :: k in db.tenants ==> db.tenants[k].phone != phone) ==>
      r == Err(Error(401, "SĐT khách thuê không tồn tại"))
    ensures (exists k :: k in db.tenants && db.tenants[k].phone == phone) ==>
      exists k :: k in db.tenants && db.tenants[k].phone == phone && r == TenantDecision(k, db.tenants[k], password)
  {
    if k :| k in db.tenants && db.tenants[k].phone == phone {
      return TenantDecision(k, db.tenants[k], password);
    }
    return Err(Error(401, "SĐT khách thuê không tồn tại"));
  }

  /** The checks run in order: a deactivated account is refused with 403 whatever
      password is given, even a wrong one. */
  lemma DeactivatedBeforePassword(id: int, t: Tenant, password: Option<string>)
    requires !t.isActive
    ensures TenantDecision(id, t, password).Err? && TenantDecision(id, t, password).error.status == 403
  {
  }

  /** A tenant written by `createContract`, new or reactivated, can log in with the
      password the contract reply carried, provided the generator never produces an
      empty password. */
  lemma LeasedTenantCanLogIn(id: int, t: Tenant, req: Contracts.NewContract, generated: string,
                             photos: seq<string>, stamp: nat)
    requires generated != ""
    ensures var password := Contracts.ChoosePassword(req.password, generated);
      && TenantDecision(id, Contracts.Reactivated(t, password, photos), Some(password)).Ok?
      && TenantDecision(id, Contracts.Registered(req, password, photos, stamp), Some(password)).Ok?
  {
    assert IsBlank("");
  }

  // ---------------------------------------------------------------------------
  // loginLandlord

  /** The checks `loginLandlord` makes on the landlord row found: a password that
      does not match the stored hash is 401, otherwise a landlord token is issued.
      `matches` stands for the hash comparison. */
  function LandlordDecision(id: int, l: Landlord, password: string, matches: (string, string) -> bool)
    : (r: Result<Session>)
    ensures r.Ok? <==> matches(password, l.passwordHash)
    ensures r.Ok? ==> r.value == Session(Claim(id, LandlordRole), l.fullName)
    ensures r.Err? ==> r.error == Error(401, "Sai mật khẩu")
  {
    if !matches(password, l.passwordHash) then Err(Error(401, "Sai mật khẩu"))
    else Ok(Session(Claim(id, LandlordRole), l.fullName))
  }

  /** The login field matches a landlord's email or phone. */
  predicate Identifies(l: Landlord, login: string) {
    l.email == login || l.phone == login
  }

  /** `loginLandlord`: the login field is compared with both email and phone; no
      row is 401, otherwise the first row decides. */
  method LoginLandlord(db: Db, login: string, password: string, matches: (string, string) -> bool)
    returns (r: Result<Session>)
    ensures (forall k :: k in db.landlords ==> !Identifies(db.landlords[k], login)) ==>
      r == Err(Error(401, "Tài khoản không tồn tại"))
    ensures (exists k :: k in db.landlords && Identifies(db.landlords[k], login)) ==>
      exists k :: k in db.landlords && Identifies(db.landlords[k], login)
                  && r == LandlordDecision(k, db.landlords[k], password, matches)
  {
    if k :| k in db.landlords && Identifies(db.landlords[k], login) {
      return LandlordDecision(k, db.landlords[k], password, matches);
    }
    return Err(Error(401, "Tài khoản không tồn tại"));
  }

  /** Whatever the path, a token's claim carries the account's own id and the
      path's role, so a tenant login never yields a landlord claim. */
  lemma ClaimsCarryRole(id: int, t: Tenant, tp: Option<string>, l: Landlord, lp: string,
                        matches: (string, string) -> bool)
    ensures TenantDecision(id, t, tp).Ok? ==> TenantDecision(id, t, tp).value.claim == Claim(id, TenantRole)
    ensures LandlordDecision(id, l, lp, matches).Ok? ==>
      LandlordDecision(id, l, lp, matches).value.claim == Claim(id, LandlordRole)
  {
  }

  // ---------------------------------------------------------------------------
  // registerLandlord

  /** No two landlords share a phone. */
  ghost predicate PhonesUnique(landlords: map<int, Landlord>) {
    forall a, b :: a in landlords && b in landlords && a != b ==> landlords[a].phone != landlords[b].phone
  }

  datatype Registration = Registration(
    fullName: string, phone: string, email: string, password: string, address: Option<string>)

  /** `registerLandlord`: a phone already registered is 400 and inserts nothing;
      otherwise the landlord is inserted with the given hash of the password and a
      falsy address stored as NULL. `storageError` stands for a statement the
      database refuses: 500 and nothing inserted. */
  method RegisterLandlord(db: Db, req: Registration, hash: string, storageError: bool) returns (r: Result<int>)
    requires db.Valid()
    modifies db`landlords, db`nextId
    ensures db.Valid()
    ensures storageError ==> r == Err(Error(500, "Lỗi server")) && db.landlords == old(db.landlords)
    ensures !storageError && (exists k :: k in old(db.landlords) && old(db.landlords)[k].phone == req.phone) ==>
      r == Err(Error(400, "Số điện thoại đã được đăng ký")) && db.landlords == old(db.landlords)
    ensures !storageError && (forall k :: k in old(db.landlords) ==> old(db.landlords)[k].phone != req.phone) ==>
      && r.Ok? && r.value !in old(db.landlords)
      && db.landlords == old(db.landlords)[r.value := Landlord(req.fullName, req.phone, req.email, hash,
                                                               OrNull(req.address))]
    ensures PhonesUnique(old(db.landlords)) ==> PhonesUnique(db.landlords)
  {
    if storageError {
      return Err(Error(500, "Lỗi server"));
    }
    if exists k :: k in db.landlords && db.landlords[k].phone == req.phone {
      return Err(Error(400, "Số điện thoại đã được đăng ký"));
    }
    var id := db.NewId();
    db.landlords := db.landlords[id := Landlord(req.fullName, req.phone, req.email, hash, OrNull(req.address))];
    r := Ok(id);
  }
}
