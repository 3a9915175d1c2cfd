/** The API session of proton/session.go: the credentials it is restored from,
    the order in which they are checked, and the locked session it produces. */
module Sessions {
  import opened Wrappers
  import opened Errors

  /** Unlocked PGP key material; only the PGP library looks inside. */
  type KeyRing

  /** An e-mail address of the account (go-proton-api `Address`, the fields used here). */
  datatype Address = Address(id: string, email: string, addrType: int, status: int)

  /** The account record returned by `GetUser` (go-proton-api `User`, the fields used here). */
  datatype User = User(id: string, name: string, email: string)

  /** Go's zero `User`, what an unset field holds. */
  const NoUser := User("", "", "")

  /** The minimum needed to restart a session (proton/session.go `SessionConfig`). */
  datatype SessionConfig = SessionConfig(
    uid: string,
    accessToken: string,
    refreshToken: string,
    saltedKeyPass: string)

  /** An authenticated API client, as `Manager.NewClient` builds it from the
      three credentials. */
  datatype Client = Client(uid: string, accessToken: string, refreshToken: string)

  /** The calls `SessionFromConfig` makes on the API manager and client, in order. */
  datatype ClientCall = NewClient | GetUser | GetAddresses

  /** The session. `addresses` (e-mail to address record) and `addressKeyRing`
      (address ID to unlocked key ring) are what key lookups in the Drive tree
      consult. */
  datatype Session = Session(
    client: Option<Client>,
    user: User,
    userKeyRing: Option<KeyRing>,
    address: seq<Address>,
    addressKeyRing: map<string, KeyRing>,
    addresses: map<string, Address>)

  /** A locked session: no key ring has been unlocked yet. */
  predicate Locked(s: Session)
  {
    s.userKeyRing.None? && s.addressKeyRing == map[]
  }

  /** All three credentials are present. */
  predicate HasCredentials(config: SessionConfig)
  {
    config.uid != "" && config.accessToken != "" && config.refreshToken != ""
  }

  /** Restores a session from stored credentials. The UID, the access token and
      the refresh token are checked in that order, and only then is a client made
      and asked for the user and the addresses. `getUser` and `getAddresses` are
      the client's answers; `calls` records which client operations ran. */
  method SessionFromConfig(
    config: SessionConfig,
    getUser: Client -> Result<User, Error>,
    getAddresses: Client -> Result<seq<Address>, Error>)
    returns (r: Result<Session, Error>, calls: seq<ClientCall>)
    ensures config.uid == "" ==> r == Err(MissingUID)
    ensures config.uid != "" && config.accessToken == "" ==> r == Err(MissingAccessToken)
    ensures (config.uid != "" && config.accessToken != "" && config.refreshToken == "") ==>
              r == Err(MissingRefreshToken)
    ensures !HasCredentials(config) <==> calls == []
    ensures HasCredentials(config) ==>
              var c := Client(config.uid, config.accessToken, config.refreshToken);
              && calls == (if getUser(c).Ok? then [NewClient, GetUser, GetAddresses] else [NewClient, GetUser])
              && (getUser(c).Err? ==> r == Err(getUser(c).error))
              && (getUser(c).Ok? && getAddresses(c).Err? ==> r == Err(getAddresses(c).error))
    ensures r.Ok? <==>
              HasCredentials(config)
              && getUser(Client(config.uid, config.accessToken, config.refreshToken)).Ok?
              && getAddresses(Client(config.uid, config.accessToken, config.refreshToken)).Ok?
    ensures r.Ok? ==>
              var c := Client(config.uid, config.accessToken, config.refreshToken);
              && r.value.client == Some(c)
              && r.value.user == getUser(c).value
              && r.value.address == getAddresses(c).value
              && r.value.addresses == map[]
              && Locked(r.value)
  {
    calls := [];
    if config.uid == "" {
      return Err(MissingUID), calls;
    }
    if config.accessToken == "" {
      return Err(MissingAccessToken), calls;
    }
    if config.refreshToken == "" {
      return Err(MissingRefreshToken), calls;
    }

    var session := Session(None, NoUser, None, [], map[], map[]);

    session := session.(client := Some(Client(config.uid, config.accessToken, config.refreshToken)));
    calls := calls + [NewClient];

    var user := getUser(session.client.value);
    calls := calls + [GetUser];
    if user.Err? {
      return Err(user.error), calls;
    }
    session := session.(user := user.value);

    var addrs := getAddresses(session.client.value);
    calls := calls + [GetAddresses];
    if addrs.Err? {
      return Err(addrs.error), calls;
    }
    session := session.(address := addrs.value);

    return Ok(session), calls;
  }
}
