/** The rows of the three tables (backend/src/models/User.js, Store.js, Rating.js) and the
    two library services the controllers call: bcrypt for passwords and JWT for tokens. */
module Schema {
  import opened Base

  /** The `role` column: `ENUM("ADMIN", "USER", "OWNER")`. */
  datatype Role = ADMIN | USER | OWNER

  function RoleName(r: Role): string
  {
    match r
    case ADMIN => "ADMIN"
    case USER => "USER"
    case OWNER => "OWNER"
  }

  /** `["ADMIN", "USER", "OWNER"].includes(role)` together with the value it selects. */
  function ParseRole(s: Option<string>): (r: Option<Role>)
    ensures r.Some? <==> s == Some("ADMIN") || s == Some("USER") || s == Some("OWNER")
    ensures r.Some? ==> s == Some(RoleName(r.value))
  {
    if s == Some("ADMIN") then Some(ADMIN)
    else if s == Some("USER") then Some(USER)
    else if s == Some("OWNER") then Some(OWNER)
    else None
  }

  /** bcrypt is modelled as an injective one-way map: the stored value is a digest of the
      password, never the password itself. Salt and cost factor are not modelled. */
  datatype PasswordHash = Bcrypt(digestOf: string)

  function Hash(password: string): PasswordHash
  {
    Bcrypt(password)
  }

  /** `bcrypt.compare(password, hash)`. */
  predicate Compare(password: string, hash: PasswordHash)
  {
    hash == Hash(password)
  }

  /** A password matches its own hash and no other password's hash. */
  lemma CompareSpec(p: string, q: string)
    ensures Compare(p, Hash(q)) <==> p == q
  {
  }

  /** `generateToken({ id, role })`: a signed token carrying the user's id and role.
      Signing secret and expiry are configuration and are not modelled. */
  datatype Token = Signed(id: nat, role: Role)

  function GenerateToken(id: nat, role: Role): Token
  {
    Signed(id, role)
  }

  /** A row of the Users table. `password` holds the bcrypt digest. */
  datatype User = User(id: nat, name: string, email: string, password: PasswordHash, address: string, role: Role)

  /** A row of the Stores table. The model declares no email column, so none is kept.
      `averageRating` is the nullable FLOAT column, here a real number. */
  datatype Store = Store(id: nat, name: string, address: string, averageRating: Option<real>, ownerId: nat)

  /** A row of the Ratings table. */
  datatype Rating = Rating(id: nat, userId: nat, storeId: nat, value: int)

  /** Column widths of the two string-bearing tables (`STRING(n)` becomes `varchar(n)`). */
  const UserNameWidth: nat := 60
  const UserEmailWidth: nat := 120
  const UserAddressWidth: nat := 400
  const StoreNameWidth: nat := 60
  const StoreAddressWidth: nat := 400

  /** The `validate: { min: 1, max: 5 }` rule of `Rating.value`. */
  predicate ValidRatingValue(v: int)
  {
    1 <= v <= 5
  }

  /** The body `{ name, email, address, password, role }` that both user signup and the
      admin's user creation read; an absent field is `None`. */
  datatype UserRequest = UserRequest(name: Option<string>, email: Option<string>, address: Option<string>,
                                     password: Option<string>, role: Option<string>)
}
