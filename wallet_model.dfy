/** The wallet record of the backend: its schema validators (every string path is
    trimmed, then required, then checked), the wallets collection with its unique owning
    user, and the `alreadyCreated` query. The address and base64 checks belong to an
    external validation library and are passed in as predicates. */
module WalletModel {
  import opened Documents

  // ---------------------------------------------------------------------------
  // Trimming, as String.prototype.trim does it
  // ---------------------------------------------------------------------------

  /** The ECMAScript WhiteSpace and LineTerminator code points, which trim removes. */
  predicate IsTrimmable(c: char)
  {
    || c == '\t' || c == '\n' || c == '\U{000B}' || c == '\U{000C}' || c == '\r' || c == ' '
    || c == '\U{00A0}' || c == '\U{1680}' || ('\U{2000}' <= c <= '\U{200A}')
    || c == '\U{2028}' || c == '\U{2029}' || c == '\U{202F}' || c == '\U{205F}'
    || c == '\U{3000}' || c == '\U{FEFF}'
  }

  predicate AllTrimmable(s: string)
  {
    forall i :: 0 <= i < |s| ==> IsTrimmable(s[i])
  }

  /** Neither the first nor the last character of `s` is one that trim removes. */
  predicate Unpadded(s: string)
  {
    s == [] || (!IsTrimmable(s[0]) && !IsTrimmable(s[|s| - 1]))
  }

  function TrimStart(s: string): (r: string)
    ensures |r| <= |s|
    ensures r == [] || !IsTrimmable(r[0])
  {
    if s != [] && IsTrimmable(s[0]) then TrimStart(s[1..]) else s
  }

  function TrimEnd(s: string): (r: string)
    ensures |r| <= |s|
    ensures r == [] || (r[0] == s[0] && !IsTrimmable(r[|r| - 1]))
  {
    if s != [] && IsTrimmable(s[|s| - 1]) then TrimEnd(s[..|s| - 1]) else s
  }

  /** `s` without its leading and trailing whitespace: what the paths' `trim: true`
      setter stores. */
  function Trim(s: string): (r: string)
    ensures Unpadded(r)
  {
    TrimEnd(TrimStart(s))
  }

  /** TrimStart drops a whitespace prefix and keeps the rest. */
  lemma {:induction false} TrimStartDropsPrefix(s: string)
    ensures var r := TrimStart(s); r == s[|s| - |r|..] && AllTrimmable(s[..|s| - |r|])
  {
    if s != [] && IsTrimmable(s[0]) {
      TrimStartDropsPrefix(s[1..]);
      var r := TrimStart(s);
      assert s[..|s| - |r|] == [s[0]] + s[1..][..|s| - 1 - |r|];
    }
  }

  /** TrimEnd drops a whitespace suffix and keeps the rest. */
  lemma {:induction false} TrimEndDropsSuffix(s: string)
    ensures var r := TrimEnd(s); r == s[..|r|] && AllTrimmable(s[|r|..])
  {
    if s != [] && IsTrimmable(s[|s| - 1]) {
      TrimEndDropsSuffix(s[..|s| - 1]);
      var r := TrimEnd(s);
      assert s[|r|..] == s[..|s| - 1][|r|..] + [s[|s| - 1]];
    }
  }

  /** Trim keeps a contiguous part of its input and drops only whitespace around it. */
  lemma TrimKeepsInfix(s: string)
    ensures var r := Trim(s);
      exists i :: 0 <= i <= |s| - |r| && r == s[i..i + |r|]
                  && AllTrimmable(s[..i]) && AllTrimmable(s[i + |r|..])
  {
    var a := TrimStart(s);
    var r := TrimEnd(a);
    TrimStartDropsPrefix(s);
    TrimEndDropsSuffix(a);
    var i := |s| - |a|;
    assert r == s[i..i + |r|];
    assert s[i + |r|..] == a[|r|..];
  }

  lemma {:induction false} TrimStartSkipsPadding(p: string, t: string)
    requires AllTrimmable(p)
    requires t == [] || !IsTrimmable(t[0])
    ensures TrimStart(p + t) == t
  {
    if p != [] {
      assert (p + t)[1..] == p[1..] + t;
      TrimStartSkipsPadding(p[1..], t);
    }
  }

  lemma {:induction false} TrimEndSkipsPadding(t: string, q: string)
    requires AllTrimmable(q)
    requires t == [] || !IsTrimmable(t[|t| - 1])
    ensures TrimEnd(t + q) == t
  {
    if q != [] {
      assert (t + q)[..|t + q| - 1] == t + q[..|q| - 1];
      TrimEndSkipsPadding(t, q[..|q| - 1]);
    }
  }

  /** Trimming removes exactly the surrounding whitespace: a value without padding,
      wrapped in any whitespace, trims back to itself. */
  lemma TrimPadded(p: string, a: string, q: string)
    requires AllTrimmable(p) && AllTrimmable(q) && Unpadded(a)
    ensures Trim(p + a + q) == a
  {
    if a == [] {
      assert p + a + q == p + q;
      TrimStartSkipsPadding(p + q, []);
      assert p + q + [] == p + q;
    } else {
      assert p + a + q == p + (a + q);
      TrimStartSkipsPadding(p, a + q);
      TrimEndSkipsPadding(a, q);
    }
  }

  lemma TrimIdempotent(s: string)
    ensures Trim(Trim(s)) == Trim(s)
  {
    var t := Trim(s);
    assert [] + t + [] == t;
    TrimPadded([], t, []);
  }

  // ---------------------------------------------------------------------------
  // The wallet schema
  // ---------------------------------------------------------------------------

  /** The fields of a wallet as they are handed to the model, before the setters run;
      `None` is a missing path. An absent guardian list is the empty array. */
  datatype WalletInput = WalletInput(
    user: Option<ObjectId>,
    walletAddress: Option<string>,
    initImplementation: Option<string>,
    initEntryPoint: Option<string>,
    initOwner: Option<string>,
    initGuardians: seq<string>,
    encryptedSigner: Option<string>)

  /** A stored wallet: every string trimmed and validated, plus the schema's timestamps. */
  datatype Wallet = Wallet(
    user: ObjectId,
    walletAddress: string,
    initImplementation: string,
    initEntryPoint: string,
    initOwner: string,
    initGuardians: seq<string>,
    encryptedSigner: string,
    createdAt: int,
    updatedAt: int)

  datatype WalletRec = WalletRec(id: ObjectId, wallet: Wallet)

  /** The validated scalar paths of the schema. */
  datatype FieldName = User | WalletAddress | InitImplementation | InitEntryPoint | InitOwner | EncryptedSigner

  /** A schema path: a scalar field or one element of `initGuardians`. */
  datatype Path = Field(name: FieldName) | Guardian(index: nat)

  /** Why one path failed validation: the `required` validator or a custom one. */
  datatype Issue = Required | Invalid(message: string)

  const InvalidAddress := "Invalid Ethereum address"
  const InvalidSigner := "Invalid encrypted signer"

  /** A string path accepts `v` exactly when it is present, not empty once trimmed, and
      its trimmed form passes the check. */
  predicate Passes(v: Option<string>, valid: string -> bool)
  {
    v.Some? && Trim(v.value) != "" && valid(Trim(v.value))
  }

  /** The validators of one string path, in Mongoose's order: the `required` validator
      (a missing or empty value), then the custom validator, both on the trimmed value. */
  function Check(v: Option<string>, valid: string -> bool, message: string): (r: Option<Issue>)
    ensures r.None? <==> Passes(v, valid)
    ensures r == Some(Required) <==> v.None? || Trim(v.value) == ""
    ensures r.Some? && r != Some(Required) ==> r == Some(Invalid(message))
  {
    match v
    case None => Some(Required)
    case Some(s) =>
      if Trim(s) == "" then Some(Required)
      else if !valid(Trim(s)) then Some(Invalid(message))
      else None
  }

  /** Every path the schema validates for `input`: the scalar fields and one path per
      guardian element. */
  function PathsOf(input: WalletInput): set<Path>
  {
    {Field(User), Field(WalletAddress), Field(InitImplementation), Field(InitEntryPoint),
     Field(InitOwner), Field(EncryptedSigner)}
    + set i | 0 <= i < |input.initGuardians| :: Guardian(i)
  }

  /** The outcome of the validators of one path. */
  function IssueOf(input: WalletInput, isAddress: string -> bool, isBase64: string -> bool, p: Path): Option<Issue>
  {
    match p
    case Field(User) => if input.user.None? then Some(Required) else None
    case Field(WalletAddress) => Check(input.walletAddress, isAddress, InvalidAddress)
    case Field(InitImplementation) => Check(input.initImplementation, isAddress, InvalidAddress)
    case Field(InitEntryPoint) => Check(input.initEntryPoint, isAddress, InvalidAddress)
    case Field(InitOwner) => Check(input.initOwner, isAddress, InvalidAddress)
    case Field(EncryptedSigner) => Check(input.encryptedSigner, isBase64, InvalidSigner)
    case Guardian(i) =>
      if i < |input.initGuardians| then Check(Some(input.initGuardians[i]), isAddress, InvalidAddress)
      else None
  }

  /** Every validation issue of an input, keyed by path as Mongoose reports them. */
  function Issues(input: WalletInput, isAddress: string -> bool, isBase64: string -> bool): (r: map<Path, Issue>)
    ensures forall p :: p in r <==> p in PathsOf(input) && IssueOf(input, isAddress, isBase64, p).Some?
    ensures forall p :: p in r ==> Some(r[p]) == IssueOf(input, isAddress, isBase64, p)
  {
    map p | p in PathsOf(input) && IssueOf(input, isAddress, isBase64, p).Some?
          :: IssueOf(input, isAddress, isBase64, p).value
  }

  /** The schema's acceptance condition, stated field by field. */
  predicate Acceptable(input: WalletInput, isAddress: string -> bool, isBase64: string -> bool)
  {
    && input.user.Some?
    && Passes(input.walletAddress, isAddress)
    && Passes(input.initImplementation, isAddress)
    && Passes(input.initEntryPoint, isAddress)
    && Passes(input.initOwner, isAddress)
    && (forall i :: 0 <= i < |input.initGuardians| ==> Passes(Some(input.initGuardians[i]), isAddress))
    && Passes(input.encryptedSigner, isBase64)
  }

  lemma AcceptableHasNoIssueAt(input: WalletInput, isAddress: string -> bool, isBase64: string -> bool, p: Path)
    requires Acceptable(input, isAddress, isBase64)
    ensures IssueOf(input, isAddress, isBase64, p).None?
  {
    match p
    case Field(_) =>
    case Guardian(i) =>
      if i < |input.initGuardians| {
        assert Passes(Some(input.initGuardians[i]), isAddress);
      }
  }

  /** The validators report nothing exactly when the input meets the field-by-field condition. */
  lemma NoIssuesIffAcceptable(input: WalletInput, isAddress: string -> bool, isBase64: string -> bool)
    ensures Issues(input, isAddress, isBase64) == map[] <==> Acceptable(input, isAddress, isBase64)
  {
    var issues := Issues(input, isAddress, isBase64);
    var gs := input.initGuardians;
    if issues == map[] {
      forall i | 0 <= i < |gs| ensures Passes(Some(gs[i]), isAddress) {
        assert Guardian(i) in PathsOf(input);
        assert Guardian(i) !in issues;
        assert IssueOf(input, isAddress, isBase64, Guardian(i)).None?;
      }
      assert IssueOf(input, isAddress, isBase64, Field(User)).None?;
      assert IssueOf(input, isAddress, isBase64, Field(WalletAddress)).None?;
      assert IssueOf(input, isAddress, isBase64, Field(InitImplementation)).None?;
      assert IssueOf(input, isAddress, isBase64, Field(InitEntryPoint)).None?;
      assert IssueOf(input, isAddress, isBase64, Field(InitOwner)).None?;
      assert IssueOf(input, isAddress, isBase64, Field(EncryptedSigner)).None?;
    } else if Acceptable(input, isAddress, isBase64) {
      var p :| p in issues;
      AcceptableHasNoIssueAt(input, isAddress, isBase64, p);
      assert false;
    }
  }

  /** Path by path, an issue is reported exactly where the field fails its condition: a
      missing user, a string path that does not pass, a guardian element that does not pass. */
  lemma IssuesPathByPath(input: WalletInput, isAddress: string -> bool, isBase64: string -> bool)
    ensures var r := Issues(input, isAddress, isBase64);
      && (Field(User) in r <==> input.user.None?)
      && (Field(WalletAddress) in r <==> !Passes(input.walletAddress, isAddress))
      && (Field(InitImplementation) in r <==> !Passes(input.initImplementation, isAddress))
      && (Field(InitEntryPoint) in r <==> !Passes(input.initEntryPoint, isAddress))
      && (Field(InitOwner) in r <==> !Passes(input.initOwner, isAddress))
      && (Field(EncryptedSigner) in r <==> !Passes(input.encryptedSigner, isBase64))
      && (forall i: nat :: Guardian(i) in r <==> i < |input.initGuardians| && !Passes(Some(input.initGuardians[i]), isAddress))
  {
    var r := Issues(input, isAddress, isBase64);
    forall i: nat
      ensures Guardian(i) in r <==> i < |input.initGuardians| && !Passes(Some(input.initGuardians[i]), isAddress)
    {
      if i < |input.initGuardians| {
        assert Guardian(i) in PathsOf(input);
      }
    }
  }

  function TrimAll(gs: seq<string>): (r: seq<string>)
    ensures |r| == |gs| && forall i :: 0 <= i < |gs| ==> r[i] == Trim(gs[i])
  {
    seq(|gs|, i requires 0 <= i < |gs| => Trim(gs[i]))
  }

  /** Runs the setters and validators of the schema on `input`; `now` stamps a new record. */
  function Validate(input: WalletInput, isAddress: string -> bool, isBase64: string -> bool, now: int)
    : (r: Result<Wallet, map<Path, Issue>>)
    ensures r.Success? <==> Acceptable(input, isAddress, isBase64)
    ensures r.Failure? ==> r.error == Issues(input, isAddress, isBase64) && r.error != map[]
    ensures r.Success? ==>
      && r.value.user == input.user.value
      && r.value.walletAddress == Trim(input.walletAddress.value)
      && r.value.initImplementation == Trim(input.initImplementation.value)
      && r.value.initEntryPoint == Trim(input.initEntryPoint.value)
      && r.value.initOwner == Trim(input.initOwner.value)
      && r.value.initGuardians == TrimAll(input.initGuardians)
      && r.value.encryptedSigner == Trim(input.encryptedSigner.value)
      && r.value.createdAt == now && r.value.updatedAt == now
    ensures r.Failure? ==>
      (Field(WalletAddress) in r.error <==> !Passes(input.walletAddress, isAddress))
      && (Field(EncryptedSigner) in r.error <==> !Passes(input.encryptedSigner, isBase64))
      && (Field(User) in r.error <==> input.user.None?)
  {
    var issues := Issues(input, isAddress, isBase64);
    NoIssuesIffAcceptable(input, isAddress, isBase64);
    if issues == map[] then
      Success(Wallet(input.user.value, Trim(input.walletAddress.value),
                     Trim(input.initImplementation.value), Trim(input.initEntryPoint.value),
                     Trim(input.initOwner.value), TrimAll(input.initGuardians),
                     Trim(input.encryptedSigner.value), now, now))
    else
      Failure(issues)
  }

  /** A valid address with whitespace around it is accepted and stored without it. */
  lemma PaddedAddressStoredTrimmed(input: WalletInput, isAddress: string -> bool, isBase64: string -> bool,
                                   now: int, p: string, a: string, q: string)
    requires AllTrimmable(p) && AllTrimmable(q) && Unpadded(a) && a != "" && isAddress(a)
    requires Acceptable(input.(walletAddress := Some(a)), isAddress, isBase64)
    ensures var r := Validate(input.(walletAddress := Some(p + a + q)), isAddress, isBase64, now);
            r.Success? && r.value.walletAddress == a
  {
    TrimPadded(p, a, q);
    TrimPadded([], a, []);
    assert [] + a + [] == a;
  }

  // ---------------------------------------------------------------------------
  // The wallets collection
  // ---------------------------------------------------------------------------

  /** The wallets collection in natural order. */
  type Store = seq<WalletRec>

  /** The unique index on `user`: no two wallets belong to the same user. */
  ghost predicate UniqueUsers(store: Store)
  {
    forall i, j :: 0 <= i < j < |store| ==> store[i].wallet.user != store[j].wallet.user
  }

  ghost predicate ValidStore(store: Store)
  {
    && (forall i, j :: 0 <= i < j < |store| ==> store[i].id != store[j].id)
    && UniqueUsers(store)
  }

  predicate HasId(store: Store, id: ObjectId)
  {
    exists i :: 0 <= i < |store| && store[i].id == id
  }

  /** `alreadyCreated(user)`: a `findOne({ user })` turned into a boolean. */
  function AlreadyCreated(store: Store, user: ObjectId): (r: bool)
    ensures r <==> exists i :: 0 <= i < |store| && store[i].wallet.user == user
  {
    FindFirst(store, (w: WalletRec) => w.wallet.user == user).Some?
  }

  datatype StoreError = ValidationError(issues: map<Path, Issue>) | DuplicateKey(path: string)

  /** Saving a new wallet: validation first, then the unique index on `user`. The id is
      the fresh ObjectId the driver assigns and `now` the clock reading for the timestamps. */
  function Insert(store: Store, id: ObjectId, input: WalletInput, now: int,
                  isAddress: string -> bool, isBase64: string -> bool): (r: Result<Store, StoreError>)
    requires ValidStore(store) && !HasId(store, id)
    ensures !Acceptable(input, isAddress, isBase64) ==> r == Failure(ValidationError(Issues(input, isAddress, isBase64)))
    ensures Acceptable(input, isAddress, isBase64) && AlreadyCreated(store, input.user.value) ==>
      r == Failure(DuplicateKey("user"))
    ensures r.Success? <==> Acceptable(input, isAddress, isBase64) && !AlreadyCreated(store, input.user.value)
    ensures r.Success? ==>
      && r.value == store + [WalletRec(id, Validate(input, isAddress, isBase64, now).value)]
      && ValidStore(r.value)
      && AlreadyCreated(r.value, input.user.value)
  {
    match Validate(input, isAddress, isBase64, now)
    case Failure(issues) => Failure(ValidationError(issues))
    case Success(w) =>
      if AlreadyCreated(store, w.user) then Failure(DuplicateKey("user"))
      else
        var s' := store + [WalletRec(id, w)];
        assert s'[|store|].wallet.user == w.user;
        Success(s')
  }

  /** Once a user has a wallet, a second one for that user is refused, whatever its fields. */
  lemma {:induction false} SecondWalletRefused(store: Store, id1: ObjectId, id2: ObjectId,
                                               first: WalletInput, second: WalletInput, now1: int, now2: int,
                                               isAddress: string -> bool, isBase64: string -> bool)
    requires ValidStore(store) && !HasId(store, id1) && id1 != id2 && !HasId(store, id2)
    requires Insert(store, id1, first, now1, isAddress, isBase64).Success?
    requires second.user == first.user
    ensures var s' := Insert(store, id1, first, now1, isAddress, isBase64).value;
            !HasId(s', id2) && Insert(s', id2, second, now2, isAddress, isBase64).Failure?
  {
    var s' := Insert(store, id1, first, now1, isAddress, isBase64).value;
    assert s' == store + [WalletRec(id1, Validate(first, isAddress, isBase64, now1).value)];
    assert !HasId(s', id2) by {
      assert forall i :: 0 <= i < |store| ==> s'[i] == store[i];
    }
  }

  /** The fields of a stored wallet document (the version key is not modelled). */
  const WalletKeys := {"_id", "user", "walletAddress", "initImplementation", "initEntryPoint",
                       "initOwner", "initGuardians", "encryptedSigner", "createdAt", "updatedAt"}

  /** The document a wallet record stands for, as populate and projections see it. */
  function WalletDoc(rec: WalletRec): (d: Fields)
    ensures d.Keys == WalletKeys
    ensures d["_id"] == Id(rec.id) && d["walletAddress"] == Text(rec.wallet.walletAddress)
    ensures d["encryptedSigner"] == Text(rec.wallet.encryptedSigner)
  {
    var w := rec.wallet;
    map["_id" := Id(rec.id), "user" := Id(w.user), "walletAddress" := Text(w.walletAddress),
        "initImplementation" := Text(w.initImplementation), "initEntryPoint" := Text(w.initEntryPoint),
        "initOwner" := Text(w.initOwner), "initGuardians" := TextList(w.initGuardians),
        "encryptedSigner" := Text(w.encryptedSigner), "createdAt" := Number(w.createdAt),
        "updatedAt" := Number(w.updatedAt)]
  }
}
