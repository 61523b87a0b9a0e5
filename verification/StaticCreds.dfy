/**
 Static credentials of a VaultDynamicSecret (controllers/vaultdynamicsecret_controller.go):
 reading the rotation metadata, waiting for a scheduled rotation, and the horizon that
 follows.  Vault's answers arrive as a sequence; its end is the point where the retries give up.
 */
module StaticCreds {
  import opened Results
  import opened Horizons
  import opened DynamicSecrets

  /** A field of a Vault response: the value of a json.Number may still fail to be an int64. */
  datatype Field = Absent | Number(value: Option<int>) | Integer(n: int) | OtherType

  /** `last_vault_rotation` is a text; `unix` is its reading as an RFC 3339 time, if it is one. */
  datatype TimeField = NoTime | Time(unix: Option<int>)

  datatype Data = Data(lastVaultRotation: TimeField, rotationPeriod: Field, rotationSchedule: string, ttl: Field)

  /** `id` tells responses with equal data apart. */
  datatype Response = Response(id: nat, data: Data)

  function ParseField(f: Field): Result<int, string> {
    match f
    case Absent => Ok(0)
    case Integer(n) => Ok(n)
    case Number(Some(n)) => Ok(n)
    case Number(None) => Err("not an int64")
    case OtherType => Err("invalid type")
  }

  /** `vaultStaticCredsMetaDataFromData`. */
  function ParseCreds(d: Data): Result<CredsMeta, string> {
    if d.lastVaultRotation.Time? && d.lastVaultRotation.unix.None? then Err("invalid last_vault_rotation")
    else
      var rotation := if d.lastVaultRotation.Time? then d.lastVaultRotation.unix.value else 0;
      match ParseField(d.rotationPeriod)
      case Err(e) => Err(e)
      case Ok(period) =>
        match ParseField(d.ttl)
        case Err(e) => Err(e)
        case Ok(ttl) => Ok(CredsMeta(rotation, period, d.rotationSchedule, ttl))
  }

  /** Each field of the metadata is read from the field of the response that has its name; none may be malformed. */
  lemma ParsedFields(d: Data)
    ensures var r := ParseCreds(d);
      && (r.Ok? <==> !(d.lastVaultRotation.Time? && d.lastVaultRotation.unix.None?)
                     && Readable(d.rotationPeriod) && Readable(d.ttl))
      && (r.Ok? ==>
            && r.value.lastVaultRotation == (if d.lastVaultRotation.Time? then d.lastVaultRotation.unix.value else 0)
            && Reads(d.rotationPeriod, r.value.rotationPeriod)
            && Reads(d.ttl, r.value.ttl)
            && r.value.rotationSchedule == d.rotationSchedule)
  {
  }

  /** An absent field, an integer, or a number that is an int64. */
  predicate Readable(f: Field) { f.Absent? || f.Integer? || (f.Number? && f.value.Some?) }

  predicate Reads(f: Field, n: int) {
    (f.Absent? ==> n == 0) && (f.Integer? ==> n == f.n) && (f.Number? ==> f.value == Some(n))
  }

  /** The retry loop runs only inside an unchanged, scheduled rotation. */
  predicate MustWait(last: CredsMeta, m: CredsMeta) {
    && IsStaticCreds(m) && m.rotationSchedule != ""
    && last.lastVaultRotation == m.lastVaultRotation
    && last.rotationSchedule == m.rotationSchedule
  }

  /** The loop runs for credentials with a schedule whose rotation and schedule are those synced last. */
  lemma MustWaitIff(last: CredsMeta, m: CredsMeta)
    ensures MustWait(last, m) <==>
      && m.lastVaultRotation > 0 && m.rotationSchedule != ""
      && last.lastVaultRotation == m.lastVaultRotation && last.rotationSchedule == m.rotationSchedule
  {
  }

  /** It goes on as long as an answer fails, cannot be read, or shows the old rotation with an unbelievable TTL. */
  lemma AcceptableIff(last: CredsMeta, first: CredsMeta, answer: Option<Response>)
    ensures Acceptable(last, first, answer) <==>
      && answer.Some? && ParseCreds(answer.value.data).Ok?
      && var m := ParseCreds(answer.value.data).value;
         !(m.lastVaultRotation == first.lastVaultRotation && (m.ttl <= 2 || m.ttl >= last.ttl))
  {
  }

  /** An answer the loop stops at: the rotation moved, or the TTL is believable. */
  predicate Acceptable(last: CredsMeta, first: CredsMeta, answer: Option<Response>) {
    && answer.Some? && ParseCreds(answer.value.data).Ok?
    && var m := ParseCreds(answer.value.data).value;
       m.lastVaultRotation == first.lastVaultRotation ==> 2 < m.ttl < last.ttl
  }

  /**
   `awaitVaultSecretRotation`.  The metadata returned is that of the very response returned;
   when the loop ran, that response is the first acceptable answer, and as long as the
   rotation has not moved its TTL is above two and below the last synced one.
   */
  method AwaitRotation(last: CredsMeta, response: Response, answers: seq<Option<Response>>)
    returns (r: Result<(CredsMeta, Response), string>)
    ensures r.Ok? ==> ParseCreds(r.value.1.data) == Ok(r.value.0)
    ensures ParseCreds(response.data).Err? ==> r.Err?
    ensures ParseCreds(response.data).Ok? && !MustWait(last, ParseCreds(response.data).value) ==>
      r == Ok((ParseCreds(response.data).value, response))
    ensures ParseCreds(response.data).Ok? && MustWait(last, ParseCreds(response.data).value) ==>
      var first := ParseCreds(response.data).value;
      && (r.Ok? ==>
            && (r.value.0.lastVaultRotation == first.lastVaultRotation ==> 2 < r.value.0.ttl < last.ttl)
            && exists i :: 0 <= i < |answers| && answers[i] == Some(r.value.1)
                 && forall j :: 0 <= j < i ==> !Acceptable(last, first, answers[j]))
      && (r.Err? ==> forall j :: 0 <= j < |answers| ==> !Acceptable(last, first, answers[j]))
  {
    var parsed := ParseCreds(response.data);
    if parsed.Err? {
      return Err(parsed.error);
    }
    var meta := parsed.value;
    if !IsStaticCreds(meta) || meta.rotationSchedule == "" {
      return Ok((meta, response));
    }
    if last.lastVaultRotation != meta.lastVaultRotation {
      return Ok((meta, response));
    } else if last.rotationSchedule == "" {
      return Ok((meta, response));
    } else if last.rotationSchedule != meta.rotationSchedule {
      return Ok((meta, response));
    }
    for i := 0 to |answers|
      invariant forall j :: 0 <= j < i ==> !Acceptable(last, meta, answers[j])
    {
      if answers[i].None? {
        continue;
      }
      var resp := answers[i].value;
      var newMeta := ParseCreds(resp.data);
      if newMeta.Err? {
        continue;
      }
      var retry := false;
      if newMeta.value.lastVaultRotation == meta.lastVaultRotation {
        if newMeta.value.ttl <= 2 {
          retry := true; // near rotation
        } else if newMeta.value.ttl >= last.ttl {
          retry := true; // the TTL rolled over before the rotation
        }
      }
      if !retry {
        assert answers[i] == Some(resp);
        return Ok((newMeta.value, resp));
      }
    }
    return Err("gave up");
  }

  /**
   The horizon after a sync of static credentials: never before the TTL has run out and less
   than 0.65 seconds after, or between 1 and 1.15 seconds when there is no TTL.
   */
  lemma PostSyncHorizonOfStaticCreds(st: Status, spec: Spec, random: nat)
    requires spec.allowStaticCreds && IsStaticCreds(st.creds)
    ensures var h := PostSyncHorizon(st, spec, random); var ttl := st.creds.ttl * SECOND;
      && (st.creds.ttl > 0 ==> ttl <= h && 100 * (h - ttl) < 65 * SECOND)
      && (st.creds.ttl > 0 && st.creds.rotationPeriod <= 0 ==> 100 * (h - ttl) < 15 * SECOND)
      && (st.creds.ttl > 0 && st.creds.rotationPeriod > 0 ==> ttl + SECOND / 2 <= h)
      && (st.creds.ttl <= 0 ==> SECOND <= h && 100 * h < 115 * SECOND)
  {
  }

  /** Without rotation metadata there is no periodic refresh at all. */
  lemma NoHorizonWithoutRotation(st: Status, spec: Spec, random: nat)
    requires spec.allowStaticCreds
    ensures PostSyncHorizon(st, spec, random) == 0 <==> !IsStaticCreds(st.creds)
  {
    if IsStaticCreds(st.creds) {
      PostSyncHorizonOfStaticCreds(st, spec, random);
    }
  }
}
