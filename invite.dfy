/** `createInvite`: one invite document, pending, expiring seven days after
    creation (in epoch seconds). */
module Invites {

  import opened Wrappers
  import opened Js
  import opened Store

  /** `7 * 24 * 60 * 60`. */
  const SevenDays: int := 604800

  /** `Math.floor(Date.now() / 1000) + 7 * 24 * 60 * 60` for a clock reading in
      milliseconds. */
  function ExpiresAt(nowMillis: int): (e: int)
    ensures (e - SevenDays) * 1000 <= nowMillis < (e - SevenDays + 1) * 1000
  {
    nowMillis / 1000 + SevenDays
  }

  /** The fields of a new invite. */
  function InviteFields(orgId: Value, email: Value, createdBy: Value, token: string, nowMillis: int): (d: Doc)
    ensures d.Keys == {"org_id", "email", "token", "expired_at", "status", "created_by"}
    ensures d["org_id"] == orgId && d["email"] == email && d["created_by"] == createdBy
    ensures d["token"] == Str(token)
    ensures d["status"] == Str("pending")
    ensures d["expired_at"] == Num(ExpiresAt(nowMillis) as real)
  {
    map["org_id" := orgId, "email" := email, "token" := Str(token),
        "expired_at" := Num(ExpiresAt(nowMillis) as real), "status" := Str("pending"),
        "created_by" := createdBy]
  }

  /** `createInvite` on a snapshot of the invites collection; `newId` is the
      value of `ID.unique()`, `token` that of `uuidv4()`. */
  function CreateInviteIn(t: Table, orgId: Value, email: Value, createdBy: Value, token: string,
                          nowMillis: int, newId: string, failure: Option<Fault>)
    : (out: (Table, Result<Document, Thrown>))
  {
    CreateIn(t, newId, InviteFields(orgId, email, createdBy, token, nowMillis), failure)
  }

  /** Unless the store fails, exactly one document is added, under the fresh
      id, and it is the one returned; a failure adds nothing. */
  lemma {:induction false} CreateInviteAddsOne(t: Table, orgId: Value, email: Value, createdBy: Value,
                                               token: string, nowMillis: int, newId: string,
                                               failure: Option<Fault>)
    requires ValidTable(t) && newId !in t.docs
    ensures var (t', r) := CreateInviteIn(t, orgId, email, createdBy, token, nowMillis, newId, failure);
      && ValidTable(t')
      && (r.Ok? <==> failure.None?)
      && (r.Ok? ==> && t'.ids == t.ids + [newId]
                    && t'.docs == t.docs[newId := r.value.fields]
                    && r.value.id == newId
                    && r.value.fields["status"] == Str("pending")
                    && r.value.fields["org_id"] == orgId
                    && r.value.fields["email"] == email
                    && r.value.fields["created_by"] == createdBy
                    && r.value.fields["token"] == Str(token)
                    && r.value.fields["expired_at"] == Num((nowMillis / 1000 + 604800) as real))
      && (r.Err? ==> t' == t)
  {
    var d := InviteFields(orgId, email, createdBy, token, nowMillis);
    assert failure.None? ==> CreateIn(t, newId, d, failure).0 == Insert(t, newId, d);
  }

  method CreateInvite(invites: Collection, orgId: Value, email: Value, createdBy: Value, token: string,
                      nowMillis: int, newId: string, failure: Option<Fault>)
    returns (r: Result<Document, Thrown>)
    requires invites.Valid() && newId !in invites.docs
    modifies invites
    ensures invites.Valid()
    ensures (invites.Contents(), r) ==
            CreateInviteIn(old(invites.Contents()), orgId, email, createdBy, token, nowMillis, newId, failure)
  {
    var expiredAt := nowMillis / 1000 + SevenDays;
    var fields := map["org_id" := orgId, "email" := email, "token" := Str(token),
                      "expired_at" := Num(expiredAt as real), "status" := Str("pending"),
                      "created_by" := createdBy];
    r := invites.Create(newId, fields, failure);
  }
}
