/** The `authenticate` middleware (server.ts:26, 86-142): bearer-token check, role sync
    against the `ADMIN_EMAILS` list, first-login defaults, and the disabled-account
    refusal. Token verification is a parameter: `verify(token)` is the verified
    identity, or None when verification throws or yields no payload. */
module Auth {
  import opened Values
  import opened Strings
  import opened Records

  /** One `ADMIN_EMAILS` entry after `trim()` and `toLowerCase()`. */
  function Entry(part: string): string {
    Lower(Trim(part))
  }

  /** `(env || "").split(",").map(e => e.trim().toLowerCase()).filter(Boolean)`. */
  function AdminEmails(env: string): (r: seq<string>)
    ensures forall e :: e in r <==> e != "" && Listed(Split(env, ','), e)
    ensures forall k :: 0 <= k < |r| ==> IsNormalEmail(r[k])
  {
    NormalizeListed(Split(env, ','));
    Normalize(Split(env, ','))
  }

  /** Some comma-separated piece normalises to `e`. */
  ghost predicate Listed(parts: seq<string>, e: string) {
    exists k :: 0 <= k < |parts| && Entry(parts[k]) == e
  }

  /** A list entry is non-empty, has no comma, no white space at either end and no
      upper-case letter. */
  predicate IsNormalEmail(e: string) {
    && e != ""
    && ',' !in e
    && IsLowerCase(e)
    && !IsSpace(e[0]) && !IsSpace(e[|e| - 1])
  }

  function Normalize(parts: seq<string>): (r: seq<string>)
    requires forall k :: 0 <= k < |parts| ==> ',' !in parts[k]
    ensures forall k :: 0 <= k < |r| ==> IsNormalEmail(r[k])
    ensures |r| <= |parts|
  {
    if |parts| == 0 then []
    else
      var e := Entry(parts[0]);
      var rest := Normalize(parts[1..]);
      EntryIsNormal(parts[0]);
      if e != "" then
        ConsNormal(e, rest);
        [e] + rest
      else rest
  }

  lemma ConsNormal(e: string, rest: seq<string>)
    requires IsNormalEmail(e) && forall k :: 0 <= k < |rest| ==> IsNormalEmail(rest[k])
    ensures forall k :: 0 <= k < |[e] + rest| ==> IsNormalEmail(([e] + rest)[k])
  {
    forall k | 0 <= k < |[e] + rest|
      ensures IsNormalEmail(([e] + rest)[k])
    {
      if k > 0 {
        assert ([e] + rest)[k] == rest[k - 1];
      }
    }
  }

  /** The normalised list holds exactly the non-empty entries. */
  lemma {:induction false} NormalizeListed(parts: seq<string>)
    requires forall k :: 0 <= k < |parts| ==> ',' !in parts[k]
    ensures forall e :: e in Normalize(parts) <==> e != "" && Listed(parts, e)
    decreases |parts|
  {
    if |parts| > 0 {
      NormalizeListed(parts[1..]);
      ListedShift(parts);
    }
  }

  lemma ListedShift(parts: seq<string>)
    requires |parts| > 0
    ensures forall e :: Listed(parts, e) <==> Entry(parts[0]) == e || Listed(parts[1..], e)
  {
    forall e
      ensures Listed(parts, e) <==> Entry(parts[0]) == e || Listed(parts[1..], e)
    {
      ListedSplit(parts, e);
    }
  }

  lemma ListedSplit(parts: seq<string>, e: string)
    requires |parts| > 0
    ensures Listed(parts, e) <==> Entry(parts[0]) == e || Listed(parts[1..], e)
  {
    if Listed(parts, e) {
      var k :| 0 <= k < |parts| && Entry(parts[k]) == e;
      if k > 0 {
        assert Entry(parts[1..][k - 1]) == e;
      }
    }
    if Listed(parts[1..], e) {
      var k :| 0 <= k < |parts[1..]| && Entry(parts[1..][k]) == e;
      assert Entry(parts[k + 1]) == e;
    }
    if Entry(parts[0]) == e {
      assert 0 < |parts| && Entry(parts[0]) == e;
    }
  }

  lemma EntryIsNormal(part: string)
    requires ',' !in part
    ensures Entry(part) != "" ==> IsNormalEmail(Entry(part))
  {
    var t := Trim(part);
    var a :| SliceAt(t, part, a);
    SliceKeepsAbsent(t, part, a, ',');
    LowerKeepsShape(t);
  }

  /** A character absent from a string is absent from every piece of it. */
  lemma SliceKeepsAbsent(t: string, s: string, a: int, c: char)
    requires SliceAt(t, s, a) && c !in s
    ensures c !in t
  {
    forall i | 0 <= i < |t|
      ensures t[i] != c
    {
      assert t[i] == s[a + i];
    }
  }

  /** Lower-casing changes only letters: it adds no comma and no white space, and it
      leaves no upper-case letter. */
  lemma LowerKeepsShape(t: string)
    requires ',' !in t
    requires |t| > 0 ==> !IsSpace(t[0]) && !IsSpace(t[|t| - 1])
    ensures ',' !in Lower(t)
    ensures IsLowerCase(Lower(t))
    ensures |t| > 0 ==> !IsSpace(Lower(t)[0]) && !IsSpace(Lower(t)[|t| - 1])
  {
    LowerIsLowerCase(t);
    var l := Lower(t);
    forall i | 0 <= i < |t|
      ensures l[i] != ','
    {
      LowerCharShape(t[i]);
    }
    if |t| > 0 {
      LowerCharShape(t[0]);
      LowerCharShape(t[|t| - 1]);
    }
  }

  lemma LowerCharShape(c: char)
    ensures c != ',' ==> LowerChar(c) != ','
    ensures !IsSpace(c) ==> !IsSpace(LowerChar(c))
  {
  }

  /** A verified token's payload; a claim the token lacks is `undefined` (None). */
  datatype Identity = Identity(sub: string, email: Option<string>, name: Option<string>, picture: Option<string>)

  /** The store refuses an `undefined` field, so a payload without a name or a picture
      cannot be written. */
  predicate Writable(id: Identity) {
    id.name.Some? && id.picture.Some?
  }

  datatype AuthOutcome = Authenticated(user: User) | Rejected(status: int, message: string)

  /** The request's outcome and the `users` collection afterwards. */
  datatype AuthResult = AuthResult(outcome: AuthOutcome, users: map<string, User>)

  const BearerPrefix: string := "Bearer "

  /** `authHeader.split('Bearer ')[1]`: the text after the prefix, up to the next "Bearer ". */
  function BearerToken(header: string): (t: string)
    requires IsPrefix(BearerPrefix, header)
    ensures IsPrefix(BearerPrefix + t, header)
    ensures !Contains(header[|BearerPrefix|..], BearerPrefix) ==> header == BearerPrefix + t
    ensures Contains(header[|BearerPrefix|..], BearerPrefix) ==> IsPrefix(BearerPrefix + t + BearerPrefix, header)
    ensures forall i :: 0 <= i < |t| ==> !IsPrefix(BearerPrefix, header[|BearerPrefix|..][i..])
  {
    var t := UpTo(header[|BearerPrefix|..], BearerPrefix);
    BearerSplit(header, t);
    t
  }

  /** The prefix-relative facts about `UpTo` restated against the whole header. */
  lemma BearerSplit(header: string, t: string)
    requires IsPrefix(BearerPrefix, header)
    requires IsPrefix(t, header[|BearerPrefix|..])
    requires Contains(header[|BearerPrefix|..], BearerPrefix) ==> IsPrefix(t + BearerPrefix, header[|BearerPrefix|..])
    requires !Contains(header[|BearerPrefix|..], BearerPrefix) ==> t == header[|BearerPrefix|..]
    ensures IsPrefix(BearerPrefix + t, header)
    ensures !Contains(header[|BearerPrefix|..], BearerPrefix) ==> header == BearerPrefix + t
    ensures Contains(header[|BearerPrefix|..], BearerPrefix) ==> IsPrefix(BearerPrefix + t + BearerPrefix, header)
  {
    var rest := header[|BearerPrefix|..];
    assert header == BearerPrefix + rest;
    PrefixUnder(BearerPrefix, t, rest);
    if Contains(rest, BearerPrefix) {
      PrefixUnder(BearerPrefix, t + BearerPrefix, rest);
      assert BearerPrefix + t + BearerPrefix == BearerPrefix + (t + BearerPrefix);
    }
  }

  /** Putting the same head in front of a prefix and of the whole keeps it a prefix. */
  lemma PrefixUnder(h: string, p: string, s: string)
    requires IsPrefix(p, s)
    ensures IsPrefix(h + p, h + s)
  {
    assert (h + s)[..|h| + |p|] == h + s[..|p|];
  }

  /** The role the admin list grants an email: admin exactly when its lower-cased form is listed. */
  function ListedRole(adminEnv: string, email: string): Role {
    if Lower(email) in AdminEmails(adminEnv) then Admin else Member
  }

  /** The account is stored and disabled. */
  predicate DisabledAccount(id: Identity, users: map<string, User>) {
    id.sub in users && users[id.sub].status == Disabled
  }

  /** What an admitted request leaves behind: the stored user carries the token's
      claims and the login time, keeps its plan, tokens and creation time (or gets the
      first-login defaults), holds the admin role when listed or already admin, and is
      written back. */
  ghost predicate AdmittedAs(id: Identity, users: map<string, User>, adminEnv: string, now: int, r: AuthResult) {
    && r.outcome.Authenticated?
    && id.email.Some? && Writable(id)
    && var u := r.outcome.user;
    && u.id == id.sub && u.email == id.email.value
    && u.name == id.name.value && u.picture == id.picture.value && u.lastLogin == now
    && u.status == Active
    && r.users == users[u.id := u]
    && (u.role == Admin <==> ListedRole(adminEnv, u.email) == Admin || (u.id in users && users[u.id].role == Admin))
    && (u.id !in users ==>
          u.plan == "Free" && u.tokensRemaining == 10000 && u.tokensUsed == 0 && u.createdAt == now)
    && (u.id in users ==>
          u.plan == users[u.id].plan && u.tokensRemaining == users[u.id].tokensRemaining
          && u.tokensUsed == users[u.id].tokensUsed && u.createdAt == users[u.id].createdAt)
  }

  /** The middleware's work once the token has verified to `id` (server.ts:104-137). */
  function Admit(id: Identity, users: map<string, User>, adminEnv: string, now: int): (r: AuthResult)
    ensures r.outcome.Rejected? ==> r.users == users
    ensures r.outcome.Rejected? ==> r.outcome == Rejected(401, "Unauthorized") || r.outcome == Rejected(403, "Account disabled")
    ensures id.email.None? ==> r.outcome == Rejected(401, "Unauthorized")
    ensures id.email.Some? ==> (r.outcome.Rejected? <==> DisabledAccount(id, users) || !Writable(id))
    ensures !Writable(id) && !DisabledAccount(id, users) ==> r.outcome == Rejected(401, "Unauthorized")
    ensures r.outcome.Authenticated? ==> AdmittedAs(id, users, adminEnv, now, r)
  {
    if id.email.None? then
      // `payload.email!.toLowerCase()` throws on a missing email; the catch answers 401
      AuthResult(Rejected(401, "Unauthorized"), users)
    else
      var email := id.email.value;
      var currentRole := ListedRole(adminEnv, email);
      if id.sub !in users then
        if !Writable(id) then
          // `userRef.set` refuses the undefined field; the catch answers 401
          AuthResult(Rejected(401, "Unauthorized"), users)
        else
          var newUser := User(id.sub, email, id.name.value, id.picture.value, currentRole,
                              "Free", 10000, 0, Active, now, now);
          AuthResult(Authenticated(newUser), users[id.sub := newUser])
      else
        var existing := users[id.sub];
        if existing.status == Disabled then
          AuthResult(Rejected(403, "Account disabled"), users)
        else if !Writable(id) then
          // `userRef.update` refuses the undefined field; the catch answers 401
          AuthResult(Rejected(401, "Unauthorized"), users)
        else
          var role := if existing.role == Admin || currentRole == Admin then Admin else Member;
          var merged := existing.(id := id.sub, email := email, name := id.name.value,
                                  picture := id.picture.value, lastLogin := now, role := role);
          AuthResult(Authenticated(merged), users[id.sub := merged])
  }

  function Authenticate(
    header: Option<string>, verify: string -> Option<Identity>,
    users: map<string, User>, adminEnv: string, now: int): (r: AuthResult)
    ensures r.outcome.Rejected? ==> r.users == users
    ensures r.outcome.Rejected? ==> r.outcome == Rejected(401, "Unauthorized") || r.outcome == Rejected(403, "Account disabled")
    ensures (header.None? || !IsPrefix(BearerPrefix, header.value)) ==> r.outcome == Rejected(401, "Unauthorized")
    ensures header.Some? && IsPrefix(BearerPrefix, header.value) ==>
      var id := verify(BearerToken(header.value));
      && (id.None? || id.value.email.None? ==> r.outcome == Rejected(401, "Unauthorized"))
      && (id.Some? && id.value.email.Some? ==>
            (r.outcome.Rejected? <==> DisabledAccount(id.value, users) || !Writable(id.value)))
      && (id.Some? && !Writable(id.value) && !DisabledAccount(id.value, users) ==>
            r.outcome == Rejected(401, "Unauthorized"))
    ensures r.outcome.Authenticated? ==>
      && header.Some? && IsPrefix(BearerPrefix, header.value)
      && var id := verify(BearerToken(header.value));
      && id.Some? && AdmittedAs(id.value, users, adminEnv, now, r)
  {
    if header.None? || !IsPrefix(BearerPrefix, header.value) then
      AuthResult(Rejected(401, "Unauthorized"), users)
    else
      match verify(BearerToken(header.value))
      case None => AuthResult(Rejected(401, "Unauthorized"), users)
      case Some(id) => Admit(id, users, adminEnv, now)
  }

  /** Role sync never demotes: a stored admin stays admin whatever the list says. */
  lemma RoleNeverDowngraded(
    header: Option<string>, verify: string -> Option<Identity>,
    users: map<string, User>, adminEnv: string, now: int)
    ensures var r := Authenticate(header, verify, users, adminEnv, now);
      (r.outcome.Authenticated? && r.outcome.user.id in users && users[r.outcome.user.id].role == Admin)
        ==> r.outcome.user.role == Admin
  {
  }

  /** A disabled account is refused with 403 and nothing is written. */
  lemma DisabledAccountRefused(
    header: string, verify: string -> Option<Identity>,
    users: map<string, User>, adminEnv: string, now: int)
    requires IsPrefix(BearerPrefix, header)
    requires var id := verify(BearerToken(header));
      id.Some? && id.value.email.Some? && id.value.sub in users && users[id.value.sub].status == Disabled
    ensures Authenticate(Some(header), verify, users, adminEnv, now) == AuthResult(Rejected(403, "Account disabled"), users)
  {
  }
}
