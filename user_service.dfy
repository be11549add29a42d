/** The user directory service of the backend: creating, reading, updating and deleting
    user documents, and the queries that join users with their wallets. The users and
    wallets collections are sequences in natural order; `findOne` is the first match. */
module UserService {
  import opened Documents
  import WalletModel

  // ---------------------------------------------------------------------------
  // Errors
  // ---------------------------------------------------------------------------

  /** The HTTP statuses the service raises: 400 and 404. */
  datatype Status = BadRequest | NotFound

  /** An `ApiError` carries a status and a message; a `TypeError` is what the runtime
      throws when the `unset` member of an update is not an array. */
  datatype Error = ApiError(status: Status, message: string) | TypeError

  const UsernameTakenMessage := "Username already taken"
  const UsernameNotAllowedMessage := "That username is not allowed"
  const UserNotFoundMessage := "User not found"

  const NotFoundError := ApiError(NotFound, UserNotFoundMessage)

  // ---------------------------------------------------------------------------
  // Stored users and their views
  // ---------------------------------------------------------------------------

  /** A stored user: its object id and its other fields. */
  datatype UserRec = UserRec(id: ObjectId, doc: Fields)

  ghost predicate UniqueIds(users: seq<UserRec>)
  {
    forall i, j :: 0 <= i < j < |users| ==> users[i].id != users[j].id
  }

  /** The user document with its id under `_id`. */
  function UserDoc(u: UserRec): (d: Fields)
    ensures d.Keys == u.doc.Keys + {"_id"} && d["_id"] == Id(u.id)
    ensures forall k :: k in u.doc && k != "_id" ==> d[k] == u.doc[k]
  {
    u.doc["_id" := Id(u.id)]
  }

  /** The `username` field of a document, if it has one. */
  function UsernameOf(doc: Fields): Option<Value>
  {
    if "username" in doc then Some(doc["username"]) else None
  }

  function FindUserById(users: seq<UserRec>, id: ObjectId): Option<nat>
  {
    FindFirst(users, (u: UserRec) => u.id == id)
  }

  function FindUserByUsername(users: seq<UserRec>, username: Option<Value>): Option<nat>
  {
    FindFirst(users, (u: UserRec) => UsernameOf(u.doc) == username)
  }

  function FindWalletById(wallets: WalletModel.Store, id: ObjectId): Option<nat>
  {
    FindFirst(wallets, (w: WalletModel.WalletRec) => w.id == id)
  }

  /** `User.isUsernameTaken`: whether any stored user has this username. */
  function IsUsernameTaken(users: seq<UserRec>, username: Option<Value>): (r: bool)
    ensures r <==> exists i :: 0 <= i < |users| && UsernameOf(users[i].doc) == username
  {
    FindUserByUsername(users, username).Some?
  }

  /** The wallet fields each populate keeps. */
  const WalletForUser := Exclude({"_id", "user", "updatedAt"})
  const WalletForLogin := Include({"encryptedSigner"})
  const WalletForRecovery := Exclude({"_id", "user", "encryptedSigner", "updatedAt"})
  /** The user fields of `'username wallet -_id'`. */
  const UsernameAndWallet := Include({"username", "wallet"})

  /** The user document stores a reference to a wallet. */
  predicate RefersToWallet(doc: Fields)
  {
    "wallet" in doc && doc["wallet"].Id?
  }

  /** The wallet fields that a projection keeps. */
  function ViewKeys(view: Projection): set<string>
  {
    match view
    case Include(keep) => WalletModel.WalletKeys * keep
    case Exclude(drop) => WalletModel.WalletKeys - drop
  }

  /** After a populate with `view`, the `wallet` field is null (a dangling reference) or a
      wallet document with exactly the fields `view` keeps. */
  predicate ShowsWallet(doc: Fields, view: Projection)
  {
    "wallet" in doc && (doc["wallet"] == Null || (doc["wallet"].Doc? && doc["wallet"].fields.Keys == ViewKeys(view)))
  }

  /** What populate puts in place of a reference to wallet `id`: the first stored wallet
      with that id, projected, or null when there is none. */
  function PopulatedWallet(wallets: WalletModel.Store, id: ObjectId, view: Projection): Value
  {
    match FindWalletById(wallets, id)
    case None => Null
    case Some(j) => Doc(Project(WalletModel.WalletDoc(wallets[j]), view))
  }

  /** Populating the `wallet` reference of a user document with the projected wallet; a
      reference to no stored wallet becomes null, a document without one is unchanged. */
  function Populate(doc: Fields, wallets: WalletModel.Store, view: Projection): (r: Fields)
    ensures r.Keys == doc.Keys
    ensures forall k :: k in doc && k != "wallet" ==> r[k] == doc[k]
    ensures RefersToWallet(doc) ==>
      match FindWalletById(wallets, doc["wallet"].id)
      case None => r["wallet"] == Null
      case Some(i) => r["wallet"] == Doc(Project(WalletModel.WalletDoc(wallets[i]), view))
    ensures RefersToWallet(doc) ==> r["wallet"] == PopulatedWallet(wallets, doc["wallet"].id, view)
    ensures RefersToWallet(doc) ==> ShowsWallet(r, view)
    ensures !RefersToWallet(doc) ==> r == doc
  {
    if RefersToWallet(doc) then
      match FindWalletById(wallets, doc["wallet"].id)
      case None => doc["wallet" := Null]
      case Some(i) => doc["wallet" := Doc(Project(WalletModel.WalletDoc(wallets[i]), view))]
    else doc
  }

  // ---------------------------------------------------------------------------
  // Reads
  // ---------------------------------------------------------------------------

  /** `getUserById`: the user with its wallet populated without `_id`, `user` and
      `updatedAt`, or nothing. */
  function GetUserById(users: seq<UserRec>, wallets: WalletModel.Store, id: ObjectId): (r: Option<Fields>)
    ensures r.None? <==> forall i :: 0 <= i < |users| ==> users[i].id != id
    ensures r.Some? ==> "_id" in r.value && r.value["_id"] == Id(id)
    ensures r.Some? ==> var u := users[FindUserById(users, id).value];
      && u.id == id
      && (forall k :: k in u.doc && k != "_id" && k != "wallet" ==> k in r.value && r.value[k] == u.doc[k])
      && r.value.Keys == u.doc.Keys + {"_id"}
      && (RefersToWallet(u.doc) ==> ShowsWallet(r.value, WalletForUser))
      && (RefersToWallet(u.doc) ==> r.value["wallet"] == PopulatedWallet(wallets, u.doc["wallet"].id, WalletForUser))
      && (!RefersToWallet(u.doc) ==> r.value == UserDoc(u))
  {
    match FindUserById(users, id)
    case None => None
    case Some(i) =>
      var d := UserDoc(users[i]);
      assert RefersToWallet(users[i].doc) ==> RefersToWallet(d);
      Some(Populate(d, wallets, WalletForUser))
  }

  /** `getUserByUsername`: the first user with this username, without populating. */
  function GetUserByUsername(users: seq<UserRec>, username: string): (r: Option<Fields>)
    ensures r.None? <==> forall i :: 0 <= i < |users| ==> UsernameOf(users[i].doc) != Some(Text(username))
    ensures r.Some? ==> UsernameOf(r.value) == Some(Text(username))
    ensures r.Some? ==> exists i :: 0 <= i < |users| && r.value == UserDoc(users[i])
                                    && forall j :: 0 <= j < i ==> UsernameOf(users[j].doc) != Some(Text(username))
  {
    match FindUserByUsername(users, Some(Text(username)))
    case None => None
    case Some(i) => Some(UserDoc(users[i]))
  }

  /** `getUserByUsernameWithWallet`: as `getUserByUsername`, with the wallet populated
      as `getUserById` does. */
  function GetUserByUsernameWithWallet(users: seq<UserRec>, wallets: WalletModel.Store, username: string)
    : (r: Option<Fields>)
    ensures r.None? <==> GetUserByUsername(users, username).None?
    ensures r.Some? ==> var d := GetUserByUsername(users, username).value;
      && r.value.Keys == d.Keys
      && (forall k :: k in d && k != "wallet" ==> r.value[k] == d[k])
      && (RefersToWallet(d) ==> ShowsWallet(r.value, WalletForUser))
      && (RefersToWallet(d) ==> r.value["wallet"] == PopulatedWallet(wallets, d["wallet"].id, WalletForUser))
      && (!RefersToWallet(d) ==> r.value == d)
  {
    match GetUserByUsername(users, username)
    case None => None
    case Some(doc) => Some(Populate(doc, wallets, WalletForUser))
  }

  /** The `$lookup` of a user's wallet followed by the `$match` on its address. */
  predicate LinkedTo(u: UserRec, wallets: WalletModel.Store, addresses: seq<string>)
  {
    && "wallet" in u.doc && u.doc["wallet"].Id?
    && exists j :: 0 <= j < |wallets| && wallets[j].id == u.doc["wallet"].id
                   && wallets[j].wallet.walletAddress in addresses
  }

  function Matching(users: seq<UserRec>, wallets: WalletModel.Store, addresses: seq<string>): seq<UserRec>
  {
    Filter(users, (u: UserRec) => LinkedTo(u, wallets, addresses))
  }

  const IdAndUsername := Include({"_id", "username"})

  /** `getUsersByWalletAddress`: id and username of every user whose wallet's address is
      one of `addresses`, in natural order. */
  function GetUsersByWalletAddress(users: seq<UserRec>, wallets: WalletModel.Store, addresses: seq<string>)
    : (r: seq<Fields>)
    ensures |r| == |Matching(users, wallets, addresses)| <= |users|
    ensures forall k :: 0 <= k < |r| ==>
      && r[k].Keys <= {"_id", "username"}
      && var u := Matching(users, wallets, addresses)[k];
         && "_id" in r[k] && r[k]["_id"] == Id(u.id)
         && UsernameOf(r[k]) == UsernameOf(u.doc)
    ensures forall u :: u in users ==> (LinkedTo(u, wallets, addresses) <==> u in Matching(users, wallets, addresses))
  {
    var m := Matching(users, wallets, addresses);
    seq(|m|, k requires 0 <= k < |m| => Project(UserDoc(m[k]), IdAndUsername))
  }

  /** The lookup returns exactly the users linked to one of the addresses: a user's id is
      among the results if and only if its wallet's address is listed. */
  lemma {:induction false} LookupByAddressIsExact(users: seq<UserRec>, wallets: WalletModel.Store,
                                                  addresses: seq<string>, u: UserRec)
    requires UniqueIds(users) && u in users
    ensures var r := GetUsersByWalletAddress(users, wallets, addresses);
      LinkedTo(u, wallets, addresses) <==> exists k :: 0 <= k < |r| && r[k]["_id"] == Id(u.id)
  {
    var r := GetUsersByWalletAddress(users, wallets, addresses);
    var m := Matching(users, wallets, addresses);
    if LinkedTo(u, wallets, addresses) {
      var k :| 0 <= k < |m| && m[k] == u;
      assert r[k]["_id"] == Id(u.id);
    } else if k :| 0 <= k < |r| && r[k]["_id"] == Id(u.id) {
      assert m[k] in m;
      SameIdSameUser(users, m);
    }
  }

  /** In a collection with unique ids, a user of a filtered view with a given id is the
      stored user with that id. */
  lemma SameIdSameUser(users: seq<UserRec>, m: seq<UserRec>)
    requires UniqueIds(users)
    requires forall x :: x in m ==> x in users
    ensures forall u, x :: u in users && x in m && x.id == u.id ==> x == u
  {
    forall u, x | u in users && x in m && x.id == u.id ensures x == u {
      var i :| 0 <= i < |users| && users[i] == u;
      var j :| 0 <= j < |users| && users[j] == x;
      assert i == j;
    }
  }

  /** The user fields the populating variant keeps: `_id` only when asked for. */
  function PopulatedFields(withUserId: bool): set<string>
  {
    if withUserId then {"_id", "username", "wallet"} else {"username", "wallet"}
  }

  /** `getUsersByWalletAddressAndPopulate`: as `getUsersByWalletAddress`, with the wallet
      reduced to its address; the user id is included only when `withUserId` is set,
      which it is not by default. */
  function GetUsersByWalletAddressAndPopulate(users: seq<UserRec>, wallets: WalletModel.Store,
                                              addresses: seq<string>, withUserId: bool := false)
    : (r: seq<Fields>)
    requires WalletModel.ValidStore(wallets)
    ensures |r| == |Matching(users, wallets, addresses)| <= |users|
    ensures forall k :: 0 <= k < |r| ==>
      && r[k].Keys <= PopulatedFields(withUserId)
      && ("_id" in r[k] <==> withUserId)
      && var u := Matching(users, wallets, addresses)[k];
         && LinkedTo(u, wallets, addresses)
         && UsernameOf(r[k]) == UsernameOf(u.doc)
         && (withUserId ==> r[k]["_id"] == Id(u.id))
         && "wallet" in r[k]
         && var f := FindWalletById(wallets, u.doc["wallet"].id);
            && f.Some? && wallets[f.value].wallet.walletAddress in addresses
            && r[k]["wallet"] == Doc(map["walletAddress" := Text(wallets[f.value].wallet.walletAddress)])
    ensures forall u :: u in users ==> (LinkedTo(u, wallets, addresses) <==> u in Matching(users, wallets, addresses))
  {
    var m := Matching(users, wallets, addresses);
    forall k | 0 <= k < |m| ensures LinkedTo(m[k], wallets, addresses) {
      assert m[k] in m;
    }
    seq(|m|, k requires 0 <= k < |m| => PopulatedMatch(m[k], wallets, addresses, withUserId))
  }

  /** With unique wallet ids, the wallet a linked user's reference finds first is one whose
      address is listed. */
  lemma LinkedWalletFound(u: UserRec, wallets: WalletModel.Store, addresses: seq<string>)
    requires WalletModel.ValidStore(wallets) && LinkedTo(u, wallets, addresses)
    ensures var f := FindWalletById(wallets, u.doc["wallet"].id);
      f.Some? && wallets[f.value].wallet.walletAddress in addresses
  {
    var j :| 0 <= j < |wallets| && wallets[j].id == u.doc["wallet"].id
             && wallets[j].wallet.walletAddress in addresses;
    var f := FindWalletById(wallets, u.doc["wallet"].id);
    assert f.Some?;
    assert !(f.value < j) && !(j < f.value);
  }

  /** One result of the populating variant: the projected user with its wallet's address. */
  function PopulatedMatch(u: UserRec, wallets: WalletModel.Store, addresses: seq<string>, withUserId: bool)
    : (d: Fields)
    requires WalletModel.ValidStore(wallets)
    requires LinkedTo(u, wallets, addresses)
    ensures d.Keys <= PopulatedFields(withUserId) && "wallet" in d
    ensures "_id" in d <==> withUserId
    ensures withUserId ==> d["_id"] == Id(u.id)
    ensures UsernameOf(d) == UsernameOf(u.doc)
    ensures var f := FindWalletById(wallets, u.doc["wallet"].id);
      && f.Some? && wallets[f.value].wallet.walletAddress in addresses
      && d["wallet"] == Doc(map["walletAddress" := Text(wallets[f.value].wallet.walletAddress)])
  {
    LinkedWalletFound(u, wallets, addresses);
    AddressViewOfWallet(wallets, u.doc["wallet"].id);
    var projected := Project(UserDoc(u), Include(PopulatedFields(withUserId)));
    assert RefersToWallet(projected);
    Populate(projected, wallets, Include({"walletAddress"}))
  }

  /** The address view of a stored wallet holds its address and nothing else. */
  lemma AddressViewOfWallet(wallets: WalletModel.Store, id: ObjectId)
    ensures var j := FindWalletById(wallets, id);
      j.Some? ==> PopulatedWallet(wallets, id, Include({"walletAddress"}))
                  == Doc(map["walletAddress" := Text(wallets[j.value].wallet.walletAddress)])
  {
    var j := FindWalletById(wallets, id);
    if j.Some? {
      var w := WalletModel.WalletDoc(wallets[j.value]);
      assert w["walletAddress"] == Text(wallets[j.value].wallet.walletAddress);
      assert Project(w, Include({"walletAddress"})) == map["walletAddress" := Text(wallets[j.value].wallet.walletAddress)];
    }
  }

  /** `getWalletForLogin`: NOT_FOUND for an unknown username; otherwise the username and
      the wallet's encrypted signer, and nothing else. */
  function GetWalletForLogin(users: seq<UserRec>, wallets: WalletModel.Store, username: string)
    : (r: Result<Fields, Error>)
    ensures r.Failure? <==> GetUserByUsername(users, username).None?
    ensures r.Failure? ==> r.error == NotFoundError
    ensures r.Success? ==> r.value.Keys <= {"username", "wallet"} && UsernameOf(r.value) == Some(Text(username))
    ensures r.Success? && RefersToWallet(GetUserByUsername(users, username).value) ==>
      ShowsWallet(r.value, WalletForLogin)
    ensures r.Success? && RefersToWallet(GetUserByUsername(users, username).value) ==>
      var j := FindWalletById(wallets, GetUserByUsername(users, username).value["wallet"].id);
      && (j.None? ==> r.value["wallet"] == Null)
      && (j.Some? ==> r.value["wallet"] == Doc(map["encryptedSigner" := Text(wallets[j.value].wallet.encryptedSigner)]))
    ensures r.Success? && !RefersToWallet(GetUserByUsername(users, username).value) ==>
      r.value == Project(GetUserByUsername(users, username).value, UsernameAndWallet)
  {
    match FindUserByUsername(users, Some(Text(username)))
    case None => Failure(NotFoundError)
    case Some(i) =>
      var d := Project(UserDoc(users[i]), UsernameAndWallet);
      assert RefersToWallet(UserDoc(users[i])) ==> RefersToWallet(d);
      if RefersToWallet(d) then
        SignerViewOfWallet(wallets, d["wallet"].id);
        Success(Populate(d, wallets, WalletForLogin))
      else
        Success(Populate(d, wallets, WalletForLogin))
  }

  /** The login view of a stored wallet holds its encrypted signer and nothing else. */
  lemma SignerViewOfWallet(wallets: WalletModel.Store, id: ObjectId)
    ensures var j := FindWalletById(wallets, id);
      j.Some? ==> PopulatedWallet(wallets, id, WalletForLogin)
                  == Doc(map["encryptedSigner" := Text(wallets[j.value].wallet.encryptedSigner)])
  {
    var j := FindWalletById(wallets, id);
    if j.Some? {
      var w := WalletModel.WalletDoc(wallets[j.value]);
      assert Project(w, WalletForLogin) == map["encryptedSigner" := Text(wallets[j.value].wallet.encryptedSigner)];
    }
  }

  /** `getWalletForRecovery`: NOT_FOUND for an unknown username; otherwise the username and
      every wallet field except the encrypted signer, the owning user's id, the wallet's own
      id and its update time. */
  function GetWalletForRecovery(users: seq<UserRec>, wallets: WalletModel.Store, username: string)
    : (r: Result<Fields, Error>)
    ensures r.Failure? <==> GetUserByUsername(users, username).None?
    ensures r.Failure? ==> r.error == NotFoundError
    ensures r.Success? ==> r.value.Keys <= {"username", "wallet"} && UsernameOf(r.value) == Some(Text(username))
    ensures r.Success? && RefersToWallet(GetUserByUsername(users, username).value) ==>
      ShowsWallet(r.value, WalletForRecovery)
    ensures r.Success? && RefersToWallet(GetUserByUsername(users, username).value) ==>
      r.value["wallet"] == PopulatedWallet(wallets, GetUserByUsername(users, username).value["wallet"].id, WalletForRecovery)
    ensures r.Success? && !RefersToWallet(GetUserByUsername(users, username).value) ==>
      r.value == Project(GetUserByUsername(users, username).value, UsernameAndWallet)
  {
    match FindUserByUsername(users, Some(Text(username)))
    case None => Failure(NotFoundError)
    case Some(i) =>
      var d := Project(UserDoc(users[i]), UsernameAndWallet);
      assert RefersToWallet(UserDoc(users[i])) ==> RefersToWallet(d);
      Success(Populate(d, wallets, WalletForRecovery))
  }

  /** The login view of a wallet is its encrypted signer alone. */
  lemma LoginViewIsSignerOnly()
    ensures ViewKeys(WalletForLogin) == {"encryptedSigner"}
  {
  }

  /** The recovery view of a wallet is its deployment parameters and creation time; in
      particular it never holds the encrypted signer. */
  lemma RecoveryViewHidesSigner()
    ensures ViewKeys(WalletForRecovery)
      == {"walletAddress", "initImplementation", "initEntryPoint", "initOwner", "initGuardians", "createdAt"}
    ensures "encryptedSigner" !in ViewKeys(WalletForRecovery)
  {
  }

  // ---------------------------------------------------------------------------
  // The update merge
  // ---------------------------------------------------------------------------

  /** The `reduce` over the `unset` names: starting from the keys in `prev`, one key per name. */
  function UnsetKeys(names: seq<string>, prev: set<string>): (r: set<string>)
    ensures forall k :: k in r <==> k in prev || k in names
    decreases |names|
  {
    if names == [] then prev else UnsetKeys(names[1..], prev + {names[0]})
  }

  /** Destructuring `{ unset = [], ...update }`: the names to unset and the remaining patch. */
  function SplitUpdate(body: Fields): (r: Result<(Fields, seq<string>), Error>)
    ensures r.Failure? <==> "unset" in body && !body["unset"].TextList?
    ensures r.Failure? ==> r.error == TypeError
    ensures r.Success? ==> "unset" !in r.value.0 && r.value.0 == body - {"unset"}
    ensures r.Success? ==> r.value.1 == (if "unset" in body then body["unset"].items else [])
  {
    if "unset" !in body then Success((body, []))
    else match body["unset"]
      case TextList(names) => Success((body - {"unset"}, names))
      case _ => Failure(TypeError)
  }

  /** `Object.assign(user, { ...update, ...unsetObject })`: the patch is written, then
      every unset name is removed, so an unset wins over an assignment of the same field. */
  function Merge(doc: Fields, patch: Fields, unset: seq<string>): (r: Fields)
    ensures forall k :: k in unset ==> k !in r
    ensures forall k :: k in patch && k !in unset ==> k in r && r[k] == patch[k]
    ensures forall k :: k !in patch && k !in unset ==> (k in r <==> k in doc) && (k in r ==> r[k] == doc[k])
  {
    (doc + patch) - UnsetKeys(unset, {})
  }

  /** However an update body is written, the key `unset` never receives a value of it. */
  lemma UnsetKeyNeverWritten(doc: Fields, body: Fields)
    requires SplitUpdate(body).Success?
    ensures var (patch, names) := SplitUpdate(body).value;
      var r := Merge(doc, patch, names);
      "unset" in r ==> "unset" in doc && r["unset"] == doc["unset"]
  {
  }

  /** A patch `{a: 1}` with `unset: ["a", "b"]` leaves both
      `a` and `b` absent and every other field as it was. */
  lemma UnsetWinsOverPatch(doc: Fields)
    ensures var body := map["a" := Number(1), "unset" := TextList(["a", "b"])];
      var (patch, names) := SplitUpdate(body).value;
      var r := Merge(doc, patch, names);
      "a" !in r && "b" !in r && r.Keys == doc.Keys - {"a", "b"}
      && forall k :: k in r ==> r[k] == doc[k]
  {
    var body := map["a" := Number(1), "unset" := TextList(["a", "b"])];
    var (patch, names) := SplitUpdate(body).value;
    assert patch == map["a" := Number(1)];
    assert "a" in names && "b" in names;
  }

  // ---------------------------------------------------------------------------
  // Writes
  // ---------------------------------------------------------------------------

  /** The users and wallets collections the service reads and writes. */
  class UserDirectory {
    var users: seq<UserRec>
    var wallets: WalletModel.Store

    ghost predicate Valid()
      reads this
    {
      UniqueIds(users) && WalletModel.ValidStore(wallets)
    }

    constructor (users: seq<UserRec>, wallets: WalletModel.Store)
      requires UniqueIds(users) && WalletModel.ValidStore(wallets)
      ensures Valid() && this.users == users && this.wallets == wallets
    {
      this.users := users;
      this.wallets := wallets;
    }

    /** `createUser`: refuses a taken username before a blacklisted one; otherwise stores
        `body` under the fresh id `newId` and returns it. */
    method CreateUser(body: Fields, newId: ObjectId, isBlacklisted: Option<Value> -> bool)
      returns (r: Result<Fields, Error>)
      requires Valid()
      requires forall i :: 0 <= i < |users| ==> users[i].id != newId
      modifies this
      ensures Valid() && wallets == old(wallets)
      ensures IsUsernameTaken(old(users), UsernameOf(body)) ==>
        r == Failure(ApiError(BadRequest, UsernameTakenMessage)) && users == old(users)
      ensures !IsUsernameTaken(old(users), UsernameOf(body)) && isBlacklisted(UsernameOf(body)) ==>
        r == Failure(ApiError(BadRequest, UsernameNotAllowedMessage)) && users == old(users)
      ensures r.Success? <==> !IsUsernameTaken(old(users), UsernameOf(body)) && !isBlacklisted(UsernameOf(body))
      ensures r.Success? ==> users == old(users) + [UserRec(newId, body)] && r.value == UserDoc(UserRec(newId, body))
    {
      if IsUsernameTaken(users, UsernameOf(body)) {
        return Failure(ApiError(BadRequest, UsernameTakenMessage));
      }
      if isBlacklisted(UsernameOf(body)) {
        return Failure(ApiError(BadRequest, UsernameNotAllowedMessage));
      }
      var created := UserRec(newId, body);
      users := users + [created];
      r := Success(UserDoc(created));
    }

    /** `updateUserById`: NOT_FOUND for an unknown id; otherwise the patch-then-unset merge
        is applied to the stored user, which nothing else changes, and to the returned one. */
    method UpdateUserById(userId: ObjectId, body: Fields) returns (r: Result<Fields, Error>)
      requires Valid()
      modifies this
      ensures Valid() && wallets == old(wallets) && |users| == |old(users)|
      ensures FindUserById(old(users), userId).None? ==> r == Failure(NotFoundError) && users == old(users)
      ensures FindUserById(old(users), userId).Some? && SplitUpdate(body).Failure? ==>
        r == Failure(TypeError) && users == old(users)
      ensures r.Success? <==> FindUserById(old(users), userId).Some? && SplitUpdate(body).Success?
      ensures r.Success? ==>
        var i := FindUserById(old(users), userId).value;
        var (patch, names) := SplitUpdate(body).value;
        && users == old(users)[i := UserRec(userId, Merge(old(users)[i].doc, patch, names))]
        && r.value == Merge(GetUserById(old(users), old(wallets), userId).value, patch, names)
    {
      var found := FindUserById(users, userId);
      if found.None? {
        return Failure(NotFoundError);
      }
      var i := found.value;
      var user := GetUserById(users, wallets, userId).value;
      var split := SplitUpdate(body);
      if split.Failure? {
        return Failure(split.error);
      }
      var (patch, names) := split.value;
      users := users[i := UserRec(userId, Merge(users[i].doc, patch, names))];
      r := Success(Merge(user, patch, names));
    }

    /** `deleteUserById`: NOT_FOUND for an unknown id; otherwise removes exactly that user
        and returns it as `getUserById` saw it. */
    method DeleteUserById(userId: ObjectId) returns (r: Result<Fields, Error>)
      requires Valid()
      modifies this
      ensures Valid() && wallets == old(wallets)
      ensures FindUserById(old(users), userId).None? ==> r == Failure(NotFoundError) && users == old(users)
      ensures FindUserById(old(users), userId).Some? ==>
        var i := FindUserById(old(users), userId).value;
        && users == old(users)[..i] + old(users)[i + 1..]
        && r == Success(GetUserById(old(users), old(wallets), userId).value)
      ensures forall u :: u in users ==> u in old(users) && u.id != userId
    {
      var found := FindUserById(users, userId);
      if found.None? {
        return Failure(NotFoundError);
      }
      var i := found.value;
      var user := GetUserById(users, wallets, userId).value;
      ghost var before := users;
      users := users[..i] + users[i + 1..];
      assert forall a, b :: 0 <= a < b < |users| ==>
        users[a] == before[if a < i then a else a + 1] && users[b] == before[if b < i then b else b + 1];
      r := Success(user);
    }
  }
}
