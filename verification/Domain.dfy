/** The values of the identity service: subjects, rows, errors, and the symbolic hashes. */
module Domain {

  datatype Option<+T> = None | Some(value: T)

  datatype Result<+T> = Ok(value: T) | Err(error: Error)

  datatype Error =
    | InvalidInput
    | Unauthorized
    | NotFound
    | Conflict
    | TwoFANotEnrolled
    | InvalidTwoFACode
    | TokenExpired
    | TokenRevoked
    | TokenMalformed
    | Internal // an error of a library or of the store

  /** A string that the service only compares and tests for emptiness: an identifier,
      a raw token, a role. */
  datatype Text = Empty | Text(n: nat)

  /** Such a string as a caller typed it: what trimming leaves of it, and the white space around that. */
  datatype Padded = Padded(core: Text, padding: nat)

  function TrimText(t: Padded): Text {
    t.core
  }

  /** Nanoseconds since the Unix epoch. */
  type Time = int

  const SECOND: Time := 1_000_000_000
  const MINUTE: Time := 60 * SECOND
  const HOUR: Time := 60 * MINUTE

  /** Go's Time.Unix(): whole seconds, rounded down. */
  function Unix(t: Time): int {
    t / SECOND
  }

  /** SHA-256, free of collisions by construction. */
  datatype Digest = Sha256(preimage: Text)

  /** bcrypt: salted, and matched only by the string that was hashed. */
  datatype PasswordHash = Bcrypt(salt: nat, secret: string)

  predicate BcryptMatches(hash: PasswordHash, secret: string) {
    hash.secret == secret
  }

  datatype SubjectKind = KindNone | KindUser | KindAdmin

  /** The owner of a token. Go's zero value has kind `KindNone` and two empty ids. */
  datatype Subject = Subject(kind: SubjectKind, userId: Text, adminId: Text) {
    function ID(): Text {
      if kind == KindAdmin then adminId else userId
    }

    /** A user or an admin, with exactly the id of its kind filled in. */
    predicate Proper() {
      || (kind == KindUser && userId != Empty && adminId == Empty)
      || (kind == KindAdmin && adminId != Empty && userId == Empty)
    }
  }

  function UserSubject(id: Text): Subject {
    Subject(KindUser, id, Empty)
  }

  function AdminSubject(id: Text): Subject {
    Subject(KindAdmin, Empty, id)
  }

  const ZERO_SUBJECT := Subject(KindNone, Empty, Empty)

  /** The subject named by a row's two nullable columns, the user column first. */
  function OwnerOf(userId: Option<Text>, adminId: Option<Text>): Subject {
    if userId.Some? then UserSubject(userId.value)
    else if adminId.Some? then AdminSubject(adminId.value)
    else ZERO_SUBJECT
  }

  datatype User = User(id: Text, email: string, name: string, passwordHash: PasswordHash,
                       phone: string, telegram: string, deletedAt: Option<Time>)

  datatype Admin = Admin(id: Text, email: string, passwordHash: PasswordHash, name: string,
                         role: Text, requiresTwoFA: bool)

  datatype RefreshToken = RefreshToken(id: Text, tokenHash: Digest, userId: Option<Text>, adminId: Option<Text>,
                                       issuedAt: Time, expiresAt: Time, revokedAt: Option<Time>,
                                       replacedById: Option<Text>) {
    predicate IsActive(now: Time) {
      revokedAt.None? && now < expiresAt
    }

    function Owner(): Subject {
      OwnerOf(userId, adminId)
    }
  }

  datatype RevokedJTI = RevokedJTI(expiresAt: Time, reason: string)

  datatype PasswordReset = PasswordReset(id: Text, tokenHash: Digest, userId: Option<Text>, adminId: Option<Text>,
                                         requestedAt: Time, expiresAt: Time, usedAt: Option<Time>) {
    function Owner(): Subject {
      OwnerOf(userId, adminId)
    }
  }

  datatype TwoFA = TwoFA(encryptedSecret: Text, backupCodesHash: seq<PasswordHash>, enrolledAt: Option<Time>) {
    predicate IsEnrolled() {
      enrolledAt.Some?
    }
  }
}
