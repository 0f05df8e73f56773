/** The one-time-password login of backend/routes/auth.js. The OTP store is
    a map from lower-cased e-mail address to a code and its expiry instant;
    the routes change it with set and delete. The clock (`now`), the random
    draw behind a code and the mailer's result are parameters. Users are
    kept in a map keyed by their (lower-cased) e-mail address. */
module Auth {
  import opened Common
  import opened Users

  datatype OtpEntry = OtpEntry(otp: string, expiresAt: int)

  /** Five minutes, in milliseconds. */
  const OtpLifetime: int := 5 * 60 * 1000

  /** `Math.floor(100000 + r * 900000)` for a draw `r` of `Math.random()`. */
  function OtpValue(r: real): (n: nat)
    requires 0.0 <= r < 1.0
    ensures 100000 <= n <= 999999
  {
    assert 0.0 <= r * 900000.0 < 900000.0;
    (100000.0 + r * 900000.0).Floor
  }

  /** `generateOTP`: the decimal string of the drawn number. */
  function GenerateOtp(r: real): string
    requires 0.0 <= r < 1.0
  {
    NatToString(OtpValue(r))
  }

  /** A generated code is six decimal digits without a leading zero, read back as a number
      between 100000 and 999999. */
  lemma GeneratedOtpIsSixDigits(r: real)
    requires 0.0 <= r < 1.0
    ensures var code := GenerateOtp(r);
            && |code| == 6
            && AllDigits(code)
            && code[0] != '0'
            && ParseDigits(code) == OtpValue(r)
            && 100000 <= ParseDigits(code) <= 999999
  {
    assert Pow10(5) == 100000 && Pow10(6) == 1000000;
    NatToStringDigits(OtpValue(r), 6);
  }

  /** What the routes answer: a status, a message and, after a login or profile update, the user. */
  datatype Response = Response(status: int, message: string, user: Option<User>)

  /** The result the mailer reports. */
  datatype MailResult = Sent | MailFailed(error: string)

  /** `email && email.includes('@')`. */
  predicate ValidEmail(email: string)
  {
    email != "" && Contains(email, "@")
  }

  // ---------------------------------------------------------------------
  // POST /send-otp

  /** The store after send-otp: an entry is written whenever the address is accepted,
      before the mailer is called. */
  function SendStore(store: map<string, OtpEntry>, email: string, otp: string, now: int): map<string, OtpEntry>
  {
    if ValidEmail(email) then store[ToLower(email) := OtpEntry(otp, now + OtpLifetime)] else store
  }

  function SendResponse(email: string, mail: MailResult): Response
  {
    if !ValidEmail(email) then Response(400, "Valid email is required", None)
    else match mail
      case Sent => Response(200, "OTP sent successfully", None)
      case MailFailed(e) => Response(500, if e != "" then e else "Failed to send OTP", None)
  }

  /** An address without '@' is refused and the store is unchanged; an accepted address
      stores the code with a five-minute expiry under its lower-cased form, replacing any
      earlier entry and leaving the other addresses alone, whether or not the mail goes out. */
  lemma SendRules(store: map<string, OtpEntry>, email: string, otp: string, now: int, mail: MailResult, other: string)
    ensures !Contains(email, "@") ==>
              SendResponse(email, mail).status == 400 && SendStore(store, email, otp, now) == store
    ensures ValidEmail(email) ==>
              && ToLower(email) in SendStore(store, email, otp, now)
              && SendStore(store, email, otp, now)[ToLower(email)] == OtpEntry(otp, now + 300000)
              && (SendResponse(email, mail).status == 200 <==> mail == Sent)
    ensures other != ToLower(email) ==>
              (other in SendStore(store, email, otp, now) <==> other in store) &&
              (other in store ==> SendStore(store, email, otp, now)[other] == store[other])
  {
  }

  // ---------------------------------------------------------------------
  // POST /verify-otp

  datatype VerifyOutcome = MissingFields | NotFound | Expired | Mismatch | Accepted

  /** The checks against the store, in order, and the store they leave behind. */
  function Verify(store: map<string, OtpEntry>, email: string, otp: string, now: int): (VerifyOutcome, map<string, OtpEntry>)
  {
    if email == "" || otp == "" then (MissingFields, store)
    else
      var key := ToLower(email);
      if key !in store then (NotFound, store)
      else if now > store[key].expiresAt then (Expired, store - {key})
      else if store[key].otp != otp then (Mismatch, store)
      else (Accepted, store - {key})
  }

  function OutcomeResponse(outcome: VerifyOutcome): Response
    requires outcome != Accepted
  {
    match outcome
    case MissingFields => Response(400, "Email and OTP are required", None)
    case NotFound => Response(400, "OTP not found or expired", None)
    case Expired => Response(400, "OTP expired", None)
    case Mismatch => Response(400, "Invalid OTP", None)
  }

  /** An expired code is refused and its entry deleted; a wrong code is refused and its
      entry kept; a matching code in time is accepted and its entry deleted; no other
      address's entry is touched. */
  lemma VerifyRules(store: map<string, OtpEntry>, email: string, otp: string, now: int, other: string)
    requires email != "" && otp != ""
    ensures var (outcome, store') := Verify(store, email, otp, now);
            var key := ToLower(email);
            && (key !in store ==> outcome == NotFound && store' == store)
            && (key in store && now > store[key].expiresAt ==> outcome == Expired && key !in store')
            && (key in store && now <= store[key].expiresAt && store[key].otp != otp ==>
                  outcome == Mismatch && store' == store)
            && (outcome == Accepted <==> key in store && now <= store[key].expiresAt && store[key].otp == otp)
            && (outcome == Accepted ==> key !in store')
            && (other != key ==> (other in store' <==> other in store) &&
                                 (other in store ==> store'[other] == store[other]))
  {
  }

  /** A code is good for one login: verifying it a second time finds no entry. */
  lemma SingleUse(store: map<string, OtpEntry>, email: string, otp: string, now: int, later: int)
    requires Verify(store, email, otp, now).0 == Accepted
    ensures Verify(Verify(store, email, otp, now).1, email, otp, later).0 == NotFound
  {
  }

  /** A code sent to an address verifies for any spelling of it that lower-cases to the
      same string, up to and including the expiry instant, and is refused after it. */
  lemma SendThenVerify(store: map<string, OtpEntry>, email: string, email': string, otp: string,
                       now: int, later: int)
    requires ValidEmail(email) && email' != "" && otp != ""
    requires ToLower(email') == ToLower(email) && now <= later
    ensures later <= now + OtpLifetime ==> Verify(SendStore(store, email, otp, now), email', otp, later).0 == Accepted
    ensures later > now + OtpLifetime ==> Verify(SendStore(store, email, otp, now), email', otp, later).0 == Expired
  {
  }

  /** The user to log in: the stored one, or a new customer with the lower-cased address.
      The user schema is not part of this model; a new user is taken to be active. */
  function FindOrCreate(users: map<string, User>, key: string): User
  {
    if key in users then users[key] else User(key, Customer, true, "", "")
  }

  /** The whole verify-otp handler: its response, the users and the store afterwards. */
  function Login(users: map<string, User>, store: map<string, OtpEntry>, email: string, otp: string, now: int)
    : (Response, map<string, User>, map<string, OtpEntry>)
  {
    var (outcome, store') := Verify(store, email, otp, now);
    if outcome != Accepted then (OutcomeResponse(outcome), users, store')
    else
      var key := ToLower(email);
      var user := FindOrCreate(users, key);
      var users' := if key in users then users else users[key := user];
      if !user.isActive then (Response(403, "Account is inactive", None), users', store')
      else (Response(200, "Login successful", Some(user)), users', store')
  }

  /** An unknown address creates a customer; an inactive user is refused with 403 after
      the code has already been consumed; a successful login returns the existing user
      unchanged. */
  lemma LoginRules(users: map<string, User>, store: map<string, OtpEntry>, email: string, otp: string, now: int)
    requires Verify(store, email, otp, now).0 == Accepted
    ensures var (resp, users', store') := Login(users, store, email, otp, now);
            var key := ToLower(email);
            && key !in store'
            && key in users'
            && (key !in users ==> users'[key].role == Customer && users'[key].email == key)
            && (key in users ==> users' == users)
            && (key in users && !users[key].isActive ==> resp.status == 403)
            && (resp.status == 200 <==> users'[key].isActive)
            && (resp.status == 200 ==> resp.user == Some(users'[key]))
  {
  }

  // ---------------------------------------------------------------------
  // PUT /profile

  /** The profile edit: each field is overwritten only when the new value is non-empty. */
  function EditProfile(u: User, name: string, mobileNumber: string): User
  {
    u.(name := if name != "" then name else u.name,
       mobileNumber := if mobileNumber != "" then mobileNumber else u.mobileNumber)
  }

  lemma EditProfileRules(u: User, name: string, mobileNumber: string)
    ensures EditProfile(u, "", "") == u
    ensures EditProfile(u, name, mobileNumber).(name := u.name, mobileNumber := u.mobileNumber) == u
    ensures name != "" ==> EditProfile(u, name, mobileNumber).name == name
    ensures mobileNumber != "" ==> EditProfile(u, name, mobileNumber).mobileNumber == mobileNumber
    ensures EditProfile(EditProfile(u, name, mobileNumber), name, mobileNumber) == EditProfile(u, name, mobileNumber)
  {
  }

  /** The process's OTP store and the user collection the routes read and write. */
  class AuthService {
    var otpStore: map<string, OtpEntry>
    var users: map<string, User>

    constructor(users: map<string, User>)
      ensures otpStore == map[] && this.users == users
    {
      otpStore := map[];
      this.users := users;
    }

    /** POST /send-otp with the generated code `otp`. */
    method SendOtp(email: string, otp: string, now: int, mail: MailResult) returns (resp: Response)
      modifies this
      ensures resp == SendResponse(email, mail)
      ensures otpStore == SendStore(old(otpStore), email, otp, now)
      ensures users == old(users)
    {
      if email == "" || !Contains(email, "@") {
        return Response(400, "Valid email is required", None);
      }
      var normalizedEmail := ToLower(email);
      var expiresAt := now + 5 * 60 * 1000;
      otpStore := otpStore[normalizedEmail := OtpEntry(otp, expiresAt)];
      if mail.MailFailed? {
        return Response(500, if mail.error != "" then mail.error else "Failed to send OTP", None);
      }
      resp := Response(200, "OTP sent successfully", None);
    }

    /** POST /verify-otp. */
    method VerifyOtp(email: string, otp: string, now: int) returns (resp: Response)
      modifies this
      ensures (resp, users, otpStore) == Login(old(users), old(otpStore), email, otp, now)
    {
      if email == "" || otp == "" {
        return Response(400, "Email and OTP are required", None);
      }
      var normalizedEmail := ToLower(email);
      if normalizedEmail !in otpStore {
        return Response(400, "OTP not found or expired", None);
      }
      var storedData := otpStore[normalizedEmail];
      if now > storedData.expiresAt {
        otpStore := otpStore - {normalizedEmail};
        return Response(400, "OTP expired", None);
      }
      if storedData.otp != otp {
        return Response(400, "Invalid OTP", None);
      }
      otpStore := otpStore - {normalizedEmail};
      var user: User;
      if normalizedEmail in users {
        user := users[normalizedEmail];
      } else {
        user := User(normalizedEmail, Customer, true, "", "");
        users := users[normalizedEmail := user];
      }
      if !user.isActive {
        return Response(403, "Account is inactive", None);
      }
      resp := Response(200, "Login successful", Some(user));
    }

    /** PUT /profile for the signed-in user with address `email`; a missing user makes the
        handler fail with 500. */
    method UpdateProfile(email: string, name: string, mobileNumber: string) returns (resp: Response)
      modifies this
      ensures email !in old(users) ==> resp == Response(500, "Server error", None) && users == old(users)
      ensures email in old(users) ==>
                users == old(users)[email := EditProfile(old(users)[email], name, mobileNumber)] &&
                resp == Response(200, "Profile updated", Some(users[email]))
      ensures otpStore == old(otpStore)
    {
      if email !in users {
        return Response(500, "Server error", None);
      }
      var user := users[email];
      if name != "" {
        user := user.(name := name);
      }
      if mobileNumber != "" {
        user := user.(mobileNumber := mobileNumber);
      }
      users := users[email := user];
      resp := Response(200, "Profile updated", Some(user));
    }
  }
}
