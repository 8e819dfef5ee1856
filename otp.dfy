/** Passwordless login by one-time code (src/controllers/otpController.js) over the user
    collection of src/models/userModel.js. `Math.random`, `Date.now`, the SMS gateway and the
    JWT signer are parameters or opaque values here. */
module Otp {
  import opened Common
  import opened Decimal

  /** Lifetime of a code in milliseconds: ten minutes. */
  const OtpLifetimeMs: int := 10 * 60 * 1000

  /** A user document: `phone` is the unique key; `otp`, `otpExpires` (epoch ms) and `name` may be absent. */
  datatype User = User(id: ObjectId, phone: string, otp: Option<string>, otpExpires: Option<int>, name: Option<string>)

  /** The session token minted for a user id; signing is opaque. */
  datatype Token = Token(subject: ObjectId)

  /** Outcome of sending a code: the 200 acknowledgement, or the 500 reply when the SMS could not be sent. */
  datatype SendResult = OtpSent(phone: string) | DeliveryFailed

  /** Outcome of verification: 404, 400, or the login reply. */
  datatype VerifyResult =
    | UserNotFound
    | InvalidOrExpired
    | LoggedIn(id: ObjectId, phone: string, name: Option<string>, token: Token)

  /** A six-character numeric code without a leading zero. */
  predicate IsSixDigitCode(s: string)
  {
    |s| == 6 && IsDigits(s) && s[0] != '0'
  }

  /** `Math.floor(100000 + Math.random() * 900000)` for a draw `rand` of `Math.random`. */
  function OtpNumber(rand: real): (n: int)
    requires 0.0 <= rand < 1.0
    ensures 100000 <= n <= 999999
  {
    (100000.0 + rand * 900000.0).Floor
  }

  /** The code as stored and sent: the decimal string of `OtpNumber(rand)`. */
  function GenerateOtp(rand: real): (otp: string)
    requires 0.0 <= rand < 1.0
    ensures IsSixDigitCode(otp)
    ensures DecimalValue(otp) == OtpNumber(rand)
  {
    var n := OtpNumber(rand);
    DecimalLength(n, 6);
    DecimalRoundTrip(n);
    NatToDecimal(n)
  }

  /** Two draws that give different numbers give different codes. */
  lemma DistinctDrawsDistinctCodes(rand1: real, rand2: real)
    requires 0.0 <= rand1 < 1.0 && 0.0 <= rand2 < 1.0
    requires OtpNumber(rand1) != OtpNumber(rand2)
    ensures GenerateOtp(rand1) != GenerateOtp(rand2)
  {
  }

  /** The stored expiry is present and strictly before `now` (`user.otpExpires < Date.now()`:
      an absent expiry compares as false, and a code is still good at its expiry instant). */
  predicate Expired(u: User, now: int)
  {
    u.otpExpires.Some? && u.otpExpires.value < now
  }

  /** A pending code and its expiry are present together, and a pending code is six digits. */
  predicate PendingWellFormed(u: User)
  {
    && u.otp.Some? == u.otpExpires.Some?
    && (u.otp.Some? ==> IsSixDigitCode(u.otp.value))
  }

  /** The upsert of `sendOtp`: `findOneAndUpdate({phone}, {phone, otp, otpExpires}, {upsert: true})`. */
  function Issue(users: map<string, User>, phone: string, otp: string, expires: int, freshId: ObjectId): (r: map<string, User>)
    ensures r.Keys == users.Keys + {phone}
    ensures r[phone].phone == phone && r[phone].otp == Some(otp) && r[phone].otpExpires == Some(expires)
    ensures phone in users ==> r[phone].id == users[phone].id && r[phone].name == users[phone].name
    ensures phone !in users ==> r[phone].id == freshId && r[phone].name == None
    ensures forall p :: p in users && p != phone ==> r[p] == users[p]
  {
    if phone in users then
      users[phone := users[phone].(phone := phone, otp := Some(otp), otpExpires := Some(expires))]
    else
      users[phone := User(freshId, phone, Some(otp), Some(expires), None)]
  }

  /** `verifyOtp` as written: the reply and the user collection afterwards. */
  function Verify(users: map<string, User>, phone: string, submitted: Option<string>, now: int): (r: (VerifyResult, map<string, User>))
    ensures r.0.UserNotFound? <==> phone !in users
    ensures r.0.InvalidOrExpired? <==> phone in users && (users[phone].otp != submitted || Expired(users[phone], now))
    ensures !r.0.LoggedIn? ==> r.1 == users
    ensures r.0.LoggedIn? ==>
      && r.0.token == Token(users[phone].id) && r.0.id == users[phone].id
      && r.0.phone == users[phone].phone && r.0.name == users[phone].name
      && r.1.Keys == users.Keys
      && r.1[phone] == users[phone].(otp := None, otpExpires := None)
      && forall p :: p in users && p != phone ==> r.1[p] == users[p]
  {
    if phone !in users then (UserNotFound, users)
    else
      var u := users[phone];
      if u.otp != submitted || Expired(u, now) then (InvalidOrExpired, users)
      else
        var cleared := u.(otp := None, otpExpires := None);
        (LoggedIn(cleared.id, cleared.phone, cleared.name, Token(cleared.id)), users[phone := cleared])
  }

  /** Verification as evidently intended: a request without a code, or a user without a pending
      code, is rejected. */
  function VerifyChecked(users: map<string, User>, phone: string, submitted: Option<string>, now: int): (r: (VerifyResult, map<string, User>))
    ensures r.0.LoggedIn? ==>
      phone in users && submitted.Some? && users[phone].otp == submitted && !Expired(users[phone], now)
    ensures submitted.Some? ==> r == Verify(users, phone, submitted, now)
  {
    if phone in users && (submitted.None? || users[phone].otp.None?) then (InvalidOrExpired, users)
    else Verify(users, phone, submitted, now)
  }

  /** Without the check, a phone whose code was already used logs in again with no code at all. */
  lemma MissingCodeBypass(users: map<string, User>, phone: string, otp: string, issuedAt: int, freshId: ObjectId, t1: int, t2: int)
    requires issuedAt <= t1 <= issuedAt + OtpLifetimeMs
    ensures
      var afterIssue := Issue(users, phone, otp, issuedAt + OtpLifetimeMs, freshId);
      var (first, afterLogin) := Verify(afterIssue, phone, Some(otp), t1);
      first.LoggedIn? && Verify(afterLogin, phone, None, t2).0.LoggedIn?
  {
  }

  /** With the check, a used code leaves nothing that logs in, with or without a submitted code. */
  lemma CheckedNoLoginAfterUse(users: map<string, User>, phone: string, submitted: Option<string>, now: int, later: Option<string>, t: int)
    requires Verify(users, phone, submitted, now).0.LoggedIn?
    ensures !VerifyChecked(Verify(users, phone, submitted, now).1, phone, later, t).0.LoggedIn?
  {
  }

  /** Right after a code is issued, any other submitted code is rejected and nothing changes. */
  lemma WrongCodeRejected(users: map<string, User>, phone: string, otp: string, expires: int, freshId: ObjectId, wrong: Option<string>, now: int)
    requires wrong != Some(otp)
    ensures
      var after := Issue(users, phone, otp, expires, freshId);
      Verify(after, phone, wrong, now) == (InvalidOrExpired, after)
  {
  }

  /** The issued code logs in up to and including its expiry instant, with a token for that
      user, and clears the pending code. */
  lemma IssuedCodeAccepted(users: map<string, User>, phone: string, otp: string, issuedAt: int, freshId: ObjectId, now: int)
    requires now <= issuedAt + OtpLifetimeMs
    ensures
      var after := Issue(users, phone, otp, issuedAt + OtpLifetimeMs, freshId);
      var (r, final) := Verify(after, phone, Some(otp), now);
      && r.LoggedIn? && r.token == Token(after[phone].id)
      && final[phone].otp.None? && final[phone].otpExpires.None?
  {
  }

  /** After the expiry instant the issued code is rejected. */
  lemma ExpiredCodeRejected(users: map<string, User>, phone: string, otp: string, issuedAt: int, freshId: ObjectId, now: int)
    requires now > issuedAt + OtpLifetimeMs
    ensures
      var after := Issue(users, phone, otp, issuedAt + OtpLifetimeMs, freshId);
      Verify(after, phone, Some(otp), now) == (InvalidOrExpired, after)
  {
  }

  /** Issuing a second code (from a draw with a different number) invalidates the first. */
  lemma ReissueInvalidatesFirst(users: map<string, User>, phone: string, rand1: real, rand2: real, t1: int, t2: int, freshId: ObjectId, now: int)
    requires 0.0 <= rand1 < 1.0 && 0.0 <= rand2 < 1.0
    requires OtpNumber(rand1) != OtpNumber(rand2)
    ensures
      var first := Issue(users, phone, GenerateOtp(rand1), t1 + OtpLifetimeMs, freshId);
      var second := Issue(first, phone, GenerateOtp(rand2), t2 + OtpLifetimeMs, freshId);
      Verify(second, phone, Some(GenerateOtp(rand1)), now) == (InvalidOrExpired, second)
  {
  }

  /** A code is single-use: once a verification succeeds, submitting any code fails. */
  lemma CodeSingleUse(users: map<string, User>, phone: string, submitted: Option<string>, now: int, again: string, later: int)
    requires Verify(users, phone, submitted, now).0.LoggedIn?
    ensures
      var after := Verify(users, phone, submitted, now).1;
      Verify(after, phone, Some(again), later) == (InvalidOrExpired, after)
  {
  }

  /** The user collection: documents keyed by their unique phone number. */
  class UserStore {
    var users: map<string, User>
    var nextId: ObjectId

    ghost predicate Valid()
      reads this
    {
      && (forall p :: p in users ==> users[p].phone == p && users[p].id < nextId && PendingWellFormed(users[p]))
      && (forall p, q :: p in users && q in users && p != q ==> users[p].id != users[q].id)
    }

    constructor ()
      ensures Valid() && users == map[]
    {
      users := map[];
      nextId := 0;
    }

    /** `sendOtp`: the record is written first; a failed SMS (`delivered` false) only changes the reply. */
    method SendOtp(phone: string, rand: real, now: int, delivered: bool) returns (r: SendResult)
      requires Valid()
      requires 0.0 <= rand < 1.0
      modifies this
      ensures Valid()
      ensures users == Issue(old(users), phone, GenerateOtp(rand), now + OtpLifetimeMs, old(nextId))
      ensures nextId == if phone in old(users) then old(nextId) else old(nextId) + 1
      ensures r == if delivered then OtpSent(phone) else DeliveryFailed
    {
      var otp := GenerateOtp(rand);
      var otpExpires := now + OtpLifetimeMs;
      var created := phone !in users;
      users := Issue(users, phone, otp, otpExpires, nextId);
      if created {
        nextId := nextId + 1;
      }
      if delivered {
        r := OtpSent(users[phone].phone);
      } else {
        r := DeliveryFailed;
      }
    }

    /** `verifyOtp` as written: on success the fetched record's code and expiry are cleared and saved. */
    method VerifyOtp(phone: string, submitted: Option<string>, now: int) returns (r: VerifyResult)
      requires Valid()
      modifies this
      ensures Valid() && nextId == old(nextId)
      ensures (r, users) == Verify(old(users), phone, submitted, now)
    {
      if phone !in users {
        return UserNotFound;
      }
      var user := users[phone];
      if user.otp != submitted || (user.otpExpires.Some? && user.otpExpires.value < now) {
        return InvalidOrExpired;
      }
      user := user.(otp := None, otpExpires := None);
      users := users[phone := user];
      r := LoggedIn(user.id, user.phone, user.name, Token(user.id));
    }
  }
}
