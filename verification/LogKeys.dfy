/** Campaign log keys (announcements.py): how a sent email is found again in the communication log. */
module LogKeys {
  import opened Common
  import opened Text

  const LOG_KEY_PREFIX := "announcement"

  datatype Status = Pending | Queued | Sent | Delivered | Read | Failed | Bounced | Rejected

  /** One CommunicationLog row. A log is a sequence in primary-key order. */
  datatype Row = Row(key: string, status: Status)

  function KeyPrefix(slug: string): string {
    LOG_KEY_PREFIX + ":" + slug + ":"
  }

  function LogKey(slug: string, user: nat): string {
    KeyPrefix(slug) + Decimal(user)
  }

  function LockKey(slug: string): string {
    KeyPrefix(slug) + "lock"
  }

  /** `k[len(prefix):].isdigit()` for a key that starts with the campaign's prefix. */
  predicate Claims(slug: string, key: string) {
    var p := KeyPrefix(slug);
    p <= key && |key| > |p| && AllDigits(key[|p|..])
  }

  function ClaimedUser(slug: string, key: string): nat
    requires Claims(slug, key)
  {
    ParseNat(key[|KeyPrefix(slug)|..])
  }

  function AlreadySentIds(log: seq<Row>, slug: string): set<nat> {
    set r | r in log && r.status.Sent? && Claims(slug, r.key) :: ClaimedUser(slug, r.key)
  }

  ghost predicate HasStatus(log: seq<Row>, key: string, status: Status) {
    Row(key, status) in log
  }

  lemma KeysRead(slug: string, user: nat)
    ensures LogKey(slug, user) == "announcement:" + slug + ":" + Decimal(user)
    ensures LockKey(slug) == "announcement:" + slug + ":lock"
  {
    assert LOG_KEY_PREFIX + ":" == "announcement:";
    assert ":" + "lock" == ":lock";
    Regroup("announcement:" + slug, ":", "lock");
  }

  /** A key made by log_key is claimed by its own campaign, for its own user, and by no other campaign. */
  lemma KeyHasOneOwner(slug: string, user: nat, other: string)
    ensures Claims(other, LogKey(slug, user)) <==> other == slug
    ensures ClaimedUser(slug, LogKey(slug, user)) == user
  {
    var key, p, q := LogKey(slug, user), KeyPrefix(slug), KeyPrefix(other);
    assert key[|p|..] == Decimal(user);
    ParseOfDecimal(user);
    assert forall i :: |p| <= i < |key| ==> key[i] == Decimal(user)[i - |p|];
    if Claims(other, key) {
      // Both prefixes end in a colon and are followed by digits only, so they end at the same place.
      assert forall i :: |q| <= i < |key| ==> key[i] == key[|q|..][i - |q|];
      assert key[|p| - 1] == p[|p| - 1] == ':';
      assert key[|q| - 1] == q[|q| - 1] == ':';
      assert q == key[..|q|] == key[..|p|] == p;
      SlugOfPrefix(slug);
      SlugOfPrefix(other);
    }
  }

  lemma SlugOfPrefix(slug: string)
    ensures var p := KeyPrefix(slug); p[|LOG_KEY_PREFIX| + 1..|p| - 1] == slug
  {
  }

  lemma LogKeyInjective(slug1: string, user1: nat, slug2: string, user2: nat)
    requires LogKey(slug1, user1) == LogKey(slug2, user2)
    ensures slug1 == slug2 && user1 == user2
  {
    KeyHasOneOwner(slug1, user1, slug2);
    KeyHasOneOwner(slug2, user2, slug1);
  }

  lemma LockKeyInjective(slug1: string, slug2: string)
    requires LockKey(slug1) == LockKey(slug2)
    ensures slug1 == slug2
  {
    var k1, k2 := LockKey(slug1), LockKey(slug2);
    assert k1[|LOG_KEY_PREFIX| + 1..|k1| - 5] == slug1;
    assert k2[|LOG_KEY_PREFIX| + 1..|k2| - 5] == slug2;
  }

  /* ---- When the reading is exact ------------------------------------------------------------------------------- */

  /** Digits with a zero in front that `str(n)` would not write. */
  predicate Superfluous(digits: string) {
    |digits| > 1 && digits[0] == '0'
  }

  lemma {:induction false} DecimalOfParse(digits: string)
    requires AllDigits(digits) && digits != "" && !Superfluous(digits)
    ensures Decimal(ParseNat(digits)) == digits
  {
    var n := |digits| - 1;
    if n > 0 {
      DecimalOfParse(digits[..n]);
      assert ParseNat(digits[..n]) > 0;
      assert ParseNat(digits) / 10 == ParseNat(digits[..n]);
      assert digits == digits[..n] + [digits[n]];
    } else {
      assert digits[..0] == "" && digits == [digits[0]];
    }
  }

  /** The rows of this campaign that are SENT and whose user id has a superfluous zero are doubled by rows of the
      key that log_key would make. */
  ghost predicate ZerosCovered(log: seq<Row>, slug: string) {
    forall r | r in log && r.status.Sent? && Claims(slug, r.key) && Superfluous(r.key[|KeyPrefix(slug)|..]) ::
      HasStatus(log, LogKey(slug, ClaimedUser(slug, r.key)), Sent)
  }

  /** already_sent_ids returns exactly the users logged SENT through log_key under this campaign, if and only if rows
      with a superfluous zero are doubled. Rows of other campaigns, whatever their slugs, never matter. */
  lemma AlreadySentIdsExact(log: seq<Row>, slug: string)
    ensures (forall u: nat :: u in AlreadySentIds(log, slug) <==> HasStatus(log, LogKey(slug, u), Sent))
       <==> ZerosCovered(log, slug)
  {
    forall u: nat
      ensures HasStatus(log, LogKey(slug, u), Sent) ==> u in AlreadySentIds(log, slug)
      ensures ZerosCovered(log, slug) && u in AlreadySentIds(log, slug) ==> HasStatus(log, LogKey(slug, u), Sent)
    {
      LoggedIsRead(log, slug, u);
      if ZerosCovered(log, slug) && u in AlreadySentIds(log, slug) {
        ReadIsLogged(log, slug, u);
      }
    }
    if !ZerosCovered(log, slug) {
      var r :|
        && r in log && r.status.Sent? && Claims(slug, r.key)
        && !HasStatus(log, LogKey(slug, ClaimedUser(slug, r.key)), Sent);
      assert ClaimedUser(slug, r.key) in AlreadySentIds(log, slug);
    }
  }

  lemma LoggedIsRead(log: seq<Row>, slug: string, user: nat)
    ensures HasStatus(log, LogKey(slug, user), Sent) ==> user in AlreadySentIds(log, slug)
  {
    KeyHasOneOwner(slug, user, slug);
    if HasStatus(log, LogKey(slug, user), Sent) {
      var r := Row(LogKey(slug, user), Sent);
      assert r in log && Claims(slug, r.key) && ClaimedUser(slug, r.key) == user;
    }
  }

  lemma ReadIsLogged(log: seq<Row>, slug: string, user: nat)
    requires ZerosCovered(log, slug) && user in AlreadySentIds(log, slug)
    ensures HasStatus(log, LogKey(slug, user), Sent)
  {
    var r :| r in log && r.status.Sent? && Claims(slug, r.key) && ClaimedUser(slug, r.key) == user;
    var digits := r.key[|KeyPrefix(slug)|..];
    if !Superfluous(digits) {
      DecimalOfParse(digits);
      assert r.key == KeyPrefix(slug) + digits;
      assert r == Row(LogKey(slug, user), Sent);
    }
  }

  /** Every key under the announcement prefix was made by log_key, for whatever campaign. */
  ghost predicate KeysFromCampaigns(log: seq<Row>) {
    forall r | r in log :: MadeByLogKey(r.key) || !(LOG_KEY_PREFIX + ":" <= r.key)
  }

  ghost predicate MadeByLogKey(key: string) {
    exists slug: string, user: nat :: key == LogKey(slug, user)
  }

  /** So it is exact for every campaign when nobody else writes such keys. */
  lemma MadeKeysAreExact(log: seq<Row>, slug: string)
    requires KeysFromCampaigns(log)
    ensures forall u: nat :: u in AlreadySentIds(log, slug) <==> HasStatus(log, LogKey(slug, u), Sent)
  {
    forall r | r in log && r.status.Sent? && Claims(slug, r.key)
      ensures HasStatus(log, LogKey(slug, ClaimedUser(slug, r.key)), Sent)
    {
      assert LOG_KEY_PREFIX + ":" <= KeyPrefix(slug) <= r.key;
      var s: string, u: nat :| r.key == LogKey(s, u);
      KeyHasOneOwner(s, u, slug);
      assert r == Row(LogKey(slug, u), Sent);
    }
    AlreadySentIdsExact(log, slug);
  }

  /** It can fail: a key with a leading zero is read, though log_key never makes it. */
  lemma ForeignKeyIsClaimed()
    ensures 7 in AlreadySentIds([Row("announcement:x:07", Sent)], "x")
    ensures !HasStatus([Row("announcement:x:07", Sent)], LogKey("x", 7), Sent)
  {
    var r := Row("announcement:x:07", Sent);
    assert KeyPrefix("x") == "announcement:x:";
    assert r.key[|KeyPrefix("x")|..] == "07";
    assert "07"[..1] == "0" && "0"[..0] == "";
    assert ParseNat("07") == 7;
    assert r in [r] && Claims("x", r.key) && ClaimedUser("x", r.key) == 7;
    assert Decimal(7) == "7";
    assert LogKey("x", 7) == "announcement:x:7";
  }
}
