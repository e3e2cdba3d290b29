/**
 Accounts for external sign-ins: deriving an unused username from an email address, and
 linking a verified external identity to one account.
 */
module Usernames {
  import opened Wrappers
  import Decimal

  const MAX_LOCAL_PART := 28
  const MAX_USERNAME := 32

  predicate NameChar(c: char) {
    'a' <= c <= 'z' || '0' <= c <= '9' || c == '_'
  }

  /** The username schema: `[a-z0-9_]{3,32}`. */
  predicate ValidUsername(s: string) {
    3 <= |s| <= MAX_USERNAME && forall i :: 0 <= i < |s| ==> NameChar(s[i])
  }

  function LocalPart(email: string): string {
    if email == [] || email[0] == '@' then [] else [email[0]] + LocalPart(email[1..])
  }

  function Sanitized(s: string): (r: string)
    ensures |r| == |s| && forall i :: 0 <= i < |s| ==> r[i] == if NameChar(s[i]) then s[i] else '_'
  {
    seq(|s|, i requires 0 <= i < |s| => if NameChar(s[i]) then s[i] else '_')
  }

  /** The base name of a lower-cased email: sanitized, cut to 28, "user" if empty, padded to 3. */
  function BaseName(email: string): (base: string)
    ensures 3 <= |base| <= MAX_LOCAL_PART && forall i :: 0 <= i < |base| ==> NameChar(base[i])
  {
    var clean := Sanitized(LocalPart(email));
    var cut := if |clean| > MAX_LOCAL_PART then clean[..MAX_LOCAL_PART] else clean;
    var named := if cut == [] then "user" else cut;
    if |named| >= 3 then named else named + seq(3 - |named|, _ => '_')
  }

  /**
   What the base name has to do with the email: it is the local part, up to 28 characters of it,
   each character outside the schema replaced, filled up to three; "user" for an empty one.
   */
  lemma BaseNameIs(email: string, local: string)
    requires '@' !in local && (email == local || local + "@" <= email)
    ensures var base := BaseName(email);
            var kept := if |local| > 28 then 28 else |local|;
            if local == "" then base == "user"
            else
              && |base| == (if kept < 3 then 3 else kept)
              && forall i :: 0 <= i < |base| ==> base[i] == if i < kept && NameChar(local[i]) then local[i] else '_'
  {
    LocalPartIs(email, local);
  }

  lemma {:induction false} LocalPartIs(email: string, local: string)
    requires '@' !in local && (email == local || local + "@" <= email)
    ensures LocalPart(email) == local
  {
    if local == [] {
      assert email == [] || email[0] == '@';
    } else {
      assert email[0] == local[0] && local[0] in local;
      LocalPartIs(email[1..], local[1..]);
    }
  }

  predicate IsBase(base: string) {
    3 <= |base| <= MAX_LOCAL_PART && forall i :: 0 <= i < |base| ==> NameChar(base[i])
  }

  /** The n-th name tried: the base itself, then base1, base2, ... cut to 32 characters. */
  function Candidate(base: string, n: nat): string {
    if n == 0 then base
    else
      var full := base + Decimal.Digits(n);
      if |full| > MAX_USERNAME then full[..MAX_USERNAME] else full
  }

  lemma CandidateIsValid(base: string, n: nat)
    requires IsBase(base)
    ensures ValidUsername(Candidate(base, n))
  {
  }

  /** How many suffixes fit before the cut at 32 characters bites. */
  function Room(base: string): nat
    requires IsBase(base)
  {
    Decimal.Pow10(MAX_USERNAME - |base|)
  }

  /** While the suffix fits, different suffixes give different names. */
  lemma CandidatesDiffer(base: string, m: nat, n: nat)
    requires IsBase(base) && m < Room(base) && n < Room(base) && Candidate(base, m) == Candidate(base, n)
    ensures m == n
  {
    var k := MAX_USERNAME - |base|;
    Decimal.DigitCount(m, k);
    Decimal.DigitCount(n, k);
    if m != 0 && n != 0 {
      assert (base + Decimal.Digits(m))[|base|..] == Decimal.Digits(m);
      assert (base + Decimal.Digits(n))[|base|..] == Decimal.Digits(n);
      Decimal.DigitsInjective(m, n);
    }
  }

  /** Once it bites, no new name ever comes up: each repeats one with a suffix that fits. */
  lemma CandidatesRepeat(base: string, n: nat) returns (m: nat)
    requires IsBase(base)
    ensures m < Room(base) && Candidate(base, m) == Candidate(base, n)
  {
    var k := MAX_USERNAME - |base|;
    Decimal.DigitCount(n, k);
    if n < Room(base) {
      m := n;
    } else {
      m := Decimal.DigitsPrefix(n, k);
      Decimal.DigitCount(m, k);
      LeadingDigit(n);
      assert Decimal.Digits(m)[0] == Decimal.Digits(n)[0];
      assert m != 0 by {
        assert Decimal.Digits(0) == "0";
      }
      assert (base + Decimal.Digits(n))[..MAX_USERNAME] == base + Decimal.Digits(m);
    }
  }

  /** A positive number does not start with the digit 0. */
  lemma {:induction false} LeadingDigit(n: nat)
    requires n > 0
    ensures Decimal.Digits(n)[0] != '0'
  {
    if n >= 10 {
      LeadingDigit(n / 10);
    }
  }

  /** If the first `n` names are all taken, at least `n` names are taken. */
  lemma {:induction false} TakenAtLeast(base: string, n: nat, taken: set<string>)
    requires IsBase(base) && n <= Room(base) && forall m :: 0 <= m < n ==> Candidate(base, m) in taken
    ensures n <= |taken|
  {
    if n > 0 {
      var name := Candidate(base, n - 1);
      forall m | 0 <= m < n - 1 ensures Candidate(base, m) in taken - {name} {
        if Candidate(base, m) == name {
          CandidatesDiffer(base, m, n - 1);
        }
      }
      TakenAtLeast(base, n - 1, taken - {name});
    }
  }

  lemma FewTakenBound(base: string, n: nat, taken: set<string>)
    requires IsBase(base) && forall m :: 0 <= m < n ==> Candidate(base, m) in taken
    ensures |taken| < Room(base) ==> n <= |taken|
  {
    TakenAtLeast(base, if n < Room(base) then n else Room(base), taken);
  }

  /** `n` is the first suffix whose name is free. */
  ghost predicate FirstFree(base: string, taken: set<string>, n: nat) {
    Candidate(base, n) !in taken && forall m :: 0 <= m < n ==> Candidate(base, m) in taken
  }

  /**
   The loop ends if and only if one of the names whose suffix fits is free; beyond those it
   only ever tries the same names again.
   */
  lemma EndsIffOneFits(base: string, taken: set<string>)
    requires IsBase(base)
    ensures (exists n: nat :: Candidate(base, n) !in taken) <==>
            (exists n: nat :: n < Room(base) && Candidate(base, n) !in taken)
  {
    if n: nat :| Candidate(base, n) !in taken {
      var m := CandidatesRepeat(base, n);
      assert m < Room(base) && Candidate(base, m) !in taken;
    }
  }

  /** With fewer names taken than fit, a name is found within one check more than are taken. */
  lemma {:induction false} FewTakenMeansFewChecks(base: string, taken: set<string>) returns (n: nat)
    requires IsBase(base) && |taken| < Room(base)
    ensures FirstFree(base, taken, n) && n + 1 <= |taken| + 1
  {
    n := 0;
    while Candidate(base, n) in taken
      invariant n <= |taken|
      invariant forall m :: 0 <= m < n ==> Candidate(base, m) in taken
      decreases |taken| - n
    {
      TakenAtLeast(base, n + 1, taken);
      n := n + 1;
    }
  }

  /** The loop: each test is one existence check. */
  method FirstFreeCandidate(base: string, taken: set<string>) returns (candidate: string, checks: nat)
    requires IsBase(base) && exists n: nat :: Candidate(base, n) !in taken
    ensures checks > 0 && FirstFree(base, taken, checks - 1) && candidate == Candidate(base, checks - 1)
  {
    candidate := base;
    var suffix := 0;
    checks := 1;
    ghost var free: nat :| Candidate(base, free) !in taken;
    while candidate in taken
      invariant candidate == Candidate(base, suffix) && checks == suffix + 1
      invariant forall m :: 0 <= m < suffix ==> Candidate(base, m) in taken
      invariant suffix <= free
      decreases free - suffix
    {
      suffix := suffix + 1;
      var full := base + Decimal.Digits(suffix);
      candidate := if |full| > MAX_USERNAME then full[..MAX_USERNAME] else full;
      checks := checks + 1;
    }
  }

  /**
   `taken` are the existing usernames, all lower case. The name is the first free candidate,
   found with at most one check more than names taken whenever fewer are taken than fit.
   */
  method UniqueUsername(email: string, taken: set<string>) returns (name: string, checks: nat)
    requires exists n: nat :: Candidate(BaseName(email), n) !in taken
    ensures name !in taken && ValidUsername(name)
    ensures checks > 0 && FirstFree(BaseName(email), taken, checks - 1)
            && name == Candidate(BaseName(email), checks - 1)
    ensures |taken| < Room(BaseName(email)) ==> checks <= |taken| + 1
    ensures 3 <= |name| <= 32
    ensures BaseName(email) !in taken ==> name == BaseName(email)
    ensures BaseName(email) in taken ==>
              var full := BaseName(email) + Decimal.Digits(checks - 1);
              checks > 1 && name == if |full| > 32 then full[..32] else full
  {
    var base := BaseName(email);
    name, checks := FirstFreeCandidate(base, taken);
    CandidateIsValid(base, checks - 1);
    FewTakenBound(base, checks - 1, taken);
    assert Candidate(base, 0) == base;
  }

  // ---- Linking an external identity --------------------------------------------------

  type UserId = nat

  datatype User = User(email: string, username: string)
  datatype Profile = Profile(protocol: nat, issuer: string, subject: string, email: string, emailVerified: bool) {
    function Identity(): (nat, string, string) { (protocol, issuer, subject) }
  }

  datatype LinkError = ExternalIdentityConflict

  class ExternalIdentityLinker {
    var users: map<UserId, User>
    var links: map<(nat, string, string), UserId>

    constructor ()
      ensures users == map[] && links == map[] && Consistent()
    {
      users, links := map[], map[];
    }

    function Usernames(): set<string>
      reads this
    {
      set id | id in users :: users[id].username
    }

    /** Every link names an account; emails and usernames are unique, as the schema requires. */
    ghost predicate Consistent()
      reads this
    {
      && (forall k <- links :: links[k] in users)
      && (forall a <- users, b <- users ::
            users[a].email == users[b].email || users[a].username == users[b].username ==> a == b)
    }

    method GetByEmail(email: string) returns (found: Option<UserId>)
      ensures found.Some? ==> found.value in users && users[found.value].email == email
      ensures found.None? ==> forall id <- users :: users[id].email != email
    {
      var hits := set id | id in users && users[id].email == email;
      if hits == {} {
        assert forall id <- users :: users[id].email == email ==> id in hits;
        return None;
      }
      var id :| id in hits;
      return Some(id);
    }

    /** Adds an account for an external profile, under the first free name its email gives. */
    method CreateUserFromProfile(profile: Profile, newId: UserId)
      requires Consistent() && newId !in users && forall id <- users :: users[id].email != profile.email
      requires exists n: nat :: Candidate(BaseName(profile.email), n) !in Usernames()
      modifies this`users
      ensures Consistent()
      ensures users.Keys == old(users).Keys + {newId} && forall id <- old(users) :: users[id] == old(users)[id]
      ensures users[newId].email == profile.email && ValidUsername(users[newId].username)
      ensures exists n: nat :: FirstFree(BaseName(profile.email), old(Usernames()), n) &&
                               users[newId].username == Candidate(BaseName(profile.email), n)
    {
      var username, checks := UniqueUsername(profile.email, Usernames());
      assert forall id <- users :: users[id].username in Usernames();
      users := users[newId := User(profile.email, username)];
    }

    /** `profile.email` is lower case; `newId` is the id a new account would get. */
    method FindOrCreateUser(profile: Profile, newId: UserId) returns (r: Result<UserId, LinkError>)
      requires Consistent() && newId !in users
      requires profile.Identity() in links || (exists id <- users :: users[id].email == profile.email)
               || exists n: nat :: Candidate(BaseName(profile.email), n) !in Usernames()
      modifies this
      ensures Consistent()
      ensures r.Err? ==> users == old(users) && links == old(links)
      ensures r.Err? <==> profile.Identity() !in old(links) && !profile.emailVerified
                          && exists id <- old(users) :: old(users)[id].email == profile.email
      ensures r.Ok? ==> links == old(links)[profile.Identity() := r.value] && r.value in users
      ensures r.Ok? && profile.Identity() in old(links) ==>
                r.value == old(links)[profile.Identity()] && users == old(users)
      ensures r.Ok? && profile.Identity() !in old(links) ==> users[r.value].email == profile.email
      ensures r.Ok? && r.value in old(users) ==> users == old(users)
      ensures r.Ok? && r.value !in old(users) ==>
                && r.value == newId && users.Keys == old(users).Keys + {newId}
                && (forall id <- old(users) :: users[id] == old(users)[id])
                && ValidUsername(users[newId].username) && users[newId].username !in old(Usernames())
                && exists n: nat :: FirstFree(BaseName(profile.email), old(Usernames()), n) &&
                                    users[newId].username == Candidate(BaseName(profile.email), n)
    {
      var key := profile.Identity();
      if key in links && links[key] in users {
        return Ok(links[key]);
      }
      var existing := GetByEmail(profile.email);
      var user: UserId;
      if existing.Some? {
        if !profile.emailVerified {
          return Err(ExternalIdentityConflict);
        }
        user := existing.value;
      } else {
        CreateUserFromProfile(profile, newId);
        user := newId;
      }
      links := links[key := user];
      return Ok(user);
    }
  }
}
