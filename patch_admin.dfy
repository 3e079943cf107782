/** The PATCH handler for administrators (app/routes/api.patch-admin.ts). */
module PatchAdmin {
  import opened Wrappers
  import opened Responses
  import opened Schemas
  import opened UpdateSets

  /** The stored administrator's columns the handler compares against. */
  datatype Admin = Admin(name: string, email: string)

  /** The reply when no administrator has the requested id (the message is the source's, typo included). */
  const AdminMissing: Reply := Json(false, Some("Adminiadministrator missing"), 200)

  /** The columns the administrator handler can write. */
  const AdminColumns: set<Column> := {AuthCode, Name, Email}

  /** Whether the handler puts column `c` into `updatedData`. */
  predicate Writes(c: Column, body: AdminPayload, a: Admin)
  {
    match c
    case AuthCode => Truthy(body.authCode)
    case Name => Changed(body.name, a.name)
    case Email => Changed(body.email, a.email)
    case _ => false
  }

  /** The value the handler writes for column `c`. */
  function WrittenValue(c: Column, body: AdminPayload, a: Admin, hash: string -> string): Value
    requires Writes(c, body, a)
  {
    match c
    case AuthCode => Hashed(hash(body.authCode.value))
    case Name => Text(body.name.value)
    case Email => Text(body.email.value)
  }

  /** The update set, column by column. */
  function AdminUpdate(body: AdminPayload, a: Admin, hash: string -> string): (u: UpdateSet)
    ensures u.Keys <= AdminColumns
    ensures forall c :: c in u <==> c in AdminColumns && Writes(c, body, a)
    ensures Truthy(body.authCode) ==> AuthCode in u && u[AuthCode] == Hashed(hash(body.authCode.value))
  {
    map c | c in AdminColumns && Writes(c, body, a) :: WrittenValue(c, body, a, hash)
  }

  /** `u` holds column `c` exactly when the handler writes it, with the value it writes. */
  predicate Agrees(u: UpdateSet, c: Column, body: AdminPayload, a: Admin, hash: string -> string)
  {
    (c in u <==> Writes(c, body, a)) && (c in u ==> u[c] == WrittenValue(c, body, a, hash))
  }

  /** The update set is determined by which columns are written and with what. */
  lemma IsAdminUpdate(u: UpdateSet, body: AdminPayload, a: Admin, hash: string -> string)
    requires u.Keys <= AdminColumns
    requires forall c :: c in AdminColumns ==> Agrees(u, c, body, a, hash)
    ensures u == AdminUpdate(body, a, hash)
  {
    var spec := AdminUpdate(body, a, hash);
    assert u.Keys == spec.Keys;
    assert forall c :: c in u ==> u[c] == spec[c];
  }

  /** The `updatedData` object, built field by field. */
  method BuildAdminUpdate(body: AdminPayload, administrator: Admin, hash: string -> string)
    returns (updatedData: UpdateSet)
    ensures updatedData.Keys <= AdminColumns
    ensures Agrees(updatedData, AuthCode, body, administrator, hash)
    ensures Agrees(updatedData, Name, body, administrator, hash)
    ensures Agrees(updatedData, Email, body, administrator, hash)
  {
    updatedData := map[];
    if Truthy(body.authCode) {
      updatedData := updatedData[AuthCode := Hashed(hash(body.authCode.value))];
    }
    if Changed(body.name, administrator.name) {
      updatedData := updatedData[Name := Text(body.name.value)];
    }
    if Changed(body.email, administrator.email) {
      updatedData := updatedData[Email := Text(body.email.value)];
    }
  }

  /** The administrator as the store holds it after `u` is written. */
  function Patched(a: Admin, u: UpdateSet): Admin
  {
    Admin(
      if Name in u && u[Name].Text? then u[Name].text else a.name,
      if Email in u && u[Email].Text? then u[Email].text else a.email)
  }

  /**
   * The request handler; the database is a parameter as for teachers.
   * `sent` is the update set handed to `db.administrator.update`, if any.
   */
  method PatchAdmin(
    connected: bool, lookup: Lookup<Admin>, body: AdminPayload,
    hash: string -> string, writeFault: Option<Failure>)
    returns (reply: Reply, sent: Option<UpdateSet>)
    ensures !connected ==> reply == NoDatabase && sent == None
    ensures connected && lookup.Threw? ==> reply == FailureReply(lookup.failure) && sent == None
    ensures connected && lookup.Missing? ==> reply == AdminMissing && sent == None
    ensures connected && lookup.Found? ==>
      var u := AdminUpdate(body, lookup.record, hash);
      if u == map[] then reply == NoDataProvided && sent == None
      else reply == WriteReply(writeFault) && sent == Some(u)
  {
    sent := None;
    if !connected {
      reply := NoDatabase;
      return;
    }
    if lookup.Threw? {
      reply := FailureReply(lookup.failure);
      return;
    }
    if lookup.Missing? {
      reply := AdminMissing;
      return;
    }
    var administrator := lookup.record;
    var updatedData := BuildAdminUpdate(body, administrator, hash);
    IsAdminUpdate(updatedData, body, administrator, hash);
    if |updatedData| == 0 {
      reply := NoDataProvided;
      return;
    }
    sent := Some(updatedData);
    reply := WriteReply(writeFault);
  }

  /**
   * The update set is empty exactly when no auth code is sent and the name
   * and email are falsy or equal to what is stored.
   */
  lemma NoDataExactlyWhenNothingChanges(body: AdminPayload, a: Admin, hash: string -> string)
    ensures AdminUpdate(body, a, hash) == map[] <==>
      !Truthy(body.authCode) && !Changed(body.name, a.name) && !Changed(body.email, a.email)
  {
  }

  /** Sending the same body again after the update is stored writes nothing, unless it carries an auth code. */
  lemma ResubmitWritesNothing(body: AdminPayload, a: Admin, hash: string -> string)
    requires !Truthy(body.authCode)
    ensures AdminUpdate(body, Patched(a, AdminUpdate(body, a, hash)), hash) == map[]
  {
  }

  /** A payload that passed `adminSchema` only ever stores the digest of an auth code of six characters or more. */
  lemma ValidPayloadStoresLongAuthCode(body: AdminPayload, a: Admin, hash: string -> string, isEmail: string -> bool)
    requires AdminValid(body, isEmail)
    ensures AuthCode in AdminUpdate(body, a, hash) ==> |body.authCode.value| >= SecretMinLength
  {
  }
}
