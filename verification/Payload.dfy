/** From STS credentials to secret data and back: the label and key constants, the two `getCreds`
    payloads, the expiry test and the generation record. */
module Payload {
  import opened Options
  import opened Decimal
  import opened Kube

  const HERITAGE_LABEL := "heritage"
  const CONTROLLER_LABEL_VALUE := "kube-aws-iam-controller"
  const TYPE_LABEL := "type"
  const ROLE_ARN_KEY := "role-arn"
  const EXPIRE_KEY := "expire"
  const CREDENTIALS_FILE_KEY := "credentials"
  const PROCESS_FILE_KEY := "credentials.process"
  const JSON_FILE_KEY := "credentials.json"
  const GENERATION_KEY := "awsiamrole-generation"

  /** The selector of SecretsController and the one of AWSIAMRoleController. */
  const OWNER_LABELS: Labels := map[HERITAGE_LABEL := CONTROLLER_LABEL_VALUE]
  const ROLE_OWNER_LABELS: Labels := map[HERITAGE_LABEL := CONTROLLER_LABEL_VALUE, TYPE_LABEL := "awsiamrole"]

  const SECOND := 1_000_000_000

  /** One STS answer. */
  datatype Issued = Issued(accessKeyID: string, secretAccessKey: string, sessionToken: string, expiration: int)

  /** What formatting to RFC 3339 and parsing back leaves of an instant: whole seconds. */
  function Truncated(t: int): (r: int)
    ensures r <= t < r + SECOND && r % SECOND == 0
  {
    t - t % SECOND
  }

  /** SecretsController.getCreds */
  function StorePayload(i: Issued): Data {
    map[
      EXPIRE_KEY := Stamp(Truncated(i.expiration)),
      CREDENTIALS_FILE_KEY :=
        CredentialsFile(i.accessKeyID, i.secretAccessKey, i.sessionToken, Truncated(i.expiration)),
      PROCESS_FILE_KEY := ProcessFile,
      JSON_FILE_KEY := CredentialsJson(1, i.accessKeyID, i.secretAccessKey, i.sessionToken, i.expiration)
    ]
  }

  /** AWSIAMRoleController.getCreds */
  function RoleCreds(arn: string, i: Issued): Data {
    StorePayload(i)[ROLE_ARN_KEY := Text(arn)]
  }

  /** The same with the generation that its callers add. */
  function RolePayload(arn: string, i: Issued, generation: int): Data {
    RoleCreds(arn, i)[GENERATION_KEY := Text(FormatInt(generation))]
  }

  /** `time.Parse(time.RFC3339, string(data["expire"]))`; None for a missing or malformed one. */
  function ExpireOf(data: Data): Option<int> {
    if EXPIRE_KEY in data && data[EXPIRE_KEY].Stamp? then Some(data[EXPIRE_KEY].at) else None
  }

  /** The refresh test both controllers make: no readable expiry, or one closer than the limit. */
  predicate NeedsRefresh(data: Data, now: int, refreshLimit: int) {
    ExpireOf(data).None? || now + refreshLimit > ExpireOf(data).value
  }

  /** getGeneration: a missing record reads as 0, a malformed one is an error. */
  function GenerationOf(data: Data): Option<int> {
    if GENERATION_KEY !in data then Some(0)
    else if data[GENERATION_KEY].Text? then ParseInt64(data[GENERATION_KEY].text)
    else None
  }

  /** The recorded generation: 0 where there is no record, the number that the record is the text of,
      and none for a record that is not the text of an int64. */
  lemma RecordedGeneration(data: Data, n: int)
    ensures GenerationOf(data) == Some(n) <==>
              if GENERATION_KEY !in data then n == 0
              else IsInt64(n) && data[GENERATION_KEY].Text? && Reads(data[GENERATION_KEY].text, n)
  {
    if GENERATION_KEY in data && data[GENERATION_KEY].Text? {
      ParsesIff(data[GENERATION_KEY].text, n);
    }
  }

  /** The credential entries of a secret come from this STS answer: each field under its own name, the
      expiry to the second where it is formatted and whole in the JSON. */
  ghost predicate FromAnswer(data: Data, i: Issued) {
    && FileFrom(data, i) && JsonFrom(data, i)
    && "expire" in data && data["expire"] == Stamp(Truncated(i.expiration))
    && "credentials.process" in data && data["credentials.process"] == ProcessFile
  }

  ghost predicate FileFrom(data: Data, i: Issued) {
    "credentials" in data && data["credentials"].CredentialsFile? &&
    var file := data["credentials"];
    && file.fileKeyID == i.accessKeyID && file.fileKey == i.secretAccessKey && file.fileToken == i.sessionToken
    && file.fileExpiration == Truncated(i.expiration)
  }

  ghost predicate JsonFrom(data: Data, i: Issued) {
    "credentials.json" in data && data["credentials.json"].CredentialsJson? &&
    var json := data["credentials.json"];
    && json.version == 1
    && json.jsonKeyID == i.accessKeyID && json.jsonKey == i.secretAccessKey && json.jsonToken == i.sessionToken
    && json.expiration == i.expiration
  }

  const STORE_KEYS := {"expire", "credentials", "credentials.process", "credentials.json"}

  lemma GenerationReadsBack(arn: string, i: Issued, generation: int)
    requires IsInt64(generation)
    ensures GenerationOf(RolePayload(arn, i, generation)) == Some(generation)
    ensures ExpireOf(RolePayload(arn, i, generation)) == Some(Truncated(i.expiration))
    ensures RolePayload(arn, i, generation)[ROLE_ARN_KEY] == Text(arn)
  {
    FormatParse(generation);
  }

  /** A payload reads back as it was written: the credentials field by field, and for a role also the
      ARN and the generation. There is nothing else in it. */
  lemma PayloadReadsBack(arn: string, i: Issued, generation: int)
    requires IsInt64(generation)
    ensures FromAnswer(StorePayload(i), i) && StorePayload(i).Keys == STORE_KEYS
    ensures var data := RolePayload(arn, i, generation);
            && FromAnswer(data, i) && data.Keys == STORE_KEYS + {"role-arn", "awsiamrole-generation"}
            && data["role-arn"] == Text(arn) && data["awsiamrole-generation"] == Text(FormatInt(generation))
            && GenerationOf(data) == Some(generation) && ExpireOf(data) == Some(Truncated(i.expiration))
  {
    GenerationReadsBack(arn, i, generation);
  }

  /** All four credential entries of a secret come from one STS answer. */
  ghost predicate Coherent(data: Data) {
    exists i: Issued :: FromAnswer(data, i)
  }

  /** When the stored credentials really stop working: the untruncated expiry, in the JSON entry. */
  function RealExpiry(data: Data): Option<int> {
    if JSON_FILE_KEY in data && data[JSON_FILE_KEY].CredentialsJson? then Some(data[JSON_FILE_KEY].expiration)
    else None
  }

  /** Truncation makes the refresh test fire earlier, never later. */
  lemma ExpireNeverLater(data: Data)
    requires Coherent(data)
    ensures ExpireOf(data).Some? && RealExpiry(data).Some?
    ensures ExpireOf(data).value <= RealExpiry(data).value < ExpireOf(data).value + SECOND
  {
    var i :| FromAnswer(data, i);
  }

  /** The refresh test fires for data without a readable expiry and, otherwise, exactly when the stored
      one is less than the limit away. */
  lemma RefreshIff(data: Data, now: int, refreshLimit: int)
    ensures NeedsRefresh(data, now, refreshLimit) <==>
              "expire" !in data || !data["expire"].Stamp? || data["expire"].at < now + refreshLimit
  {
  }

  /** For credentials from STS it never fires late, and never a second or more early. */
  lemma RefreshWindow(data: Data, now: int, refreshLimit: int)
    requires Coherent(data)
    ensures RealExpiry(data).Some?
    ensures RealExpiry(data).value < now + refreshLimit ==> NeedsRefresh(data, now, refreshLimit)
    ensures NeedsRefresh(data, now, refreshLimit) ==> RealExpiry(data).value < now + refreshLimit + SECOND
  {
    ExpireNeverLater(data);
  }

  // ---------------------------------------------------------------- session durations

  /** The session duration in nanoseconds: one hour unless the resource asks for some, and an
      int64 product. */
  function SessionDuration(seconds: int): int {
    if seconds > 0 then Wrap64(seconds * SECOND) else 3600 * SECOND
  }

  /** A session lasts an hour where the resource asks for none, and otherwise as many seconds as it asks
      for, unless these are too many nanoseconds for an int64. */
  lemma SessionLasts(seconds: int)
    ensures seconds <= 0 ==> SessionDuration(seconds) == 3_600_000_000_000
    ensures seconds > 0 && IsInt64(seconds * 1_000_000_000) ==> SessionDuration(seconds) == seconds * 1_000_000_000
  {
  }

  /** Under the resource schema (absent, or 900 to 43200 seconds) the product never wraps and no
      session is shorter than the default refresh limit of 15 minutes. */
  lemma SchemaDurationsSuffice(seconds: int)
    requires seconds == 0 || 900 <= seconds <= 43200
    ensures SessionDuration(seconds) == (if seconds == 0 then 3600 else seconds) * SECOND
    ensures SessionDuration(seconds) >= 15 * 60 * SECOND
  {
  }
}
