/** The sandbox's sliding-window limit per client address. */
module RateLimit {
  import opened Scopes

  const LIMIT: nat := 30
  const WINDOW: int := 3_600_000_000

  /** The instants less than one window old at `now`. */
  function Recent(s: seq<Instant>, now: Instant): (r: seq<Instant>)
    ensures |r| <= |s|
  {
    if s == [] then []
    else
      var last := s[|s| - 1];
      Recent(s[..|s| - 1], now) + if now - last < WINDOW then [last] else []
  }

  /** The instants in the half-open window [from, from + WINDOW). */
  function Inside(s: seq<Instant>, from: Instant): seq<Instant> {
    if s == [] then []
    else
      var last := s[|s| - 1];
      Inside(s[..|s| - 1], from) + if from <= last < from + WINDOW then [last] else []
  }

  ghost predicate Ordered(s: seq<Instant>, upTo: Instant) {
    && (forall i, j :: 0 <= i < j < |s| ==> s[i] <= s[j])
    && forall i :: 0 <= i < |s| ==> s[i] <= upTo
  }

  /** Every admission came when fewer than LIMIT lay within the hour before it. */
  ghost predicate Metered(s: seq<Instant>) {
    forall i :: 0 <= i < |s| ==> |Recent(s[..i], s[i])| < LIMIT
  }

  lemma {:induction false} RecentOfRecent(s: seq<Instant>, earlier: Instant, later: Instant)
    requires earlier <= later
    ensures Recent(Recent(s, earlier), later) == Recent(s, later)
  {
    if s != [] {
      var front, last := s[..|s| - 1], s[|s| - 1];
      RecentOfRecent(front, earlier, later);
      if earlier - last < WINDOW {
        RecentAppend(Recent(front, earlier), last, later);
      } else {
        assert Recent(s, earlier) == Recent(front, earlier) && Recent(s, later) == Recent(front, later);
      }
    }
  }

  lemma RecentAppend(s: seq<Instant>, t: Instant, now: Instant)
    ensures Recent(s + [t], now) == Recent(s, now) + if now - t < WINDOW then [t] else []
  {
    assert (s + [t])[..|s|] == s;
  }

  /** A window seen from its last admission: everything in it is recent there. */
  lemma {:induction false} InsideIsRecent(s: seq<Instant>, from: Instant, now: Instant)
    requires from <= now < from + WINDOW
    ensures |Inside(s, from)| <= |Recent(s, now)|
  {
    if s != [] {
      InsideIsRecent(s[..|s| - 1], from, now);
    }
  }

  /** No one-hour window, wherever it starts, holds more than LIMIT admissions of one address. */
  lemma {:induction false} NoWindowExceedsTheLimit(s: seq<Instant>, from: Instant)
    requires Metered(s)
    ensures |Inside(s, from)| <= LIMIT
  {
    if s != [] {
      var n := |s| - 1;
      var front, last := s[..n], s[n];
      forall i | 0 <= i < n ensures |Recent(front[..i], front[i])| < LIMIT {
        assert front[..i] == s[..i];
      }
      NoWindowExceedsTheLimit(front, from);
      if from <= last < from + WINDOW {
        InsideIsRecent(front, from, last);
        assert |Recent(s[..n], s[n])| < LIMIT;
      }
    }
  }

  /** The per-address accounting. `history` is every admission ever made; `hits` is what the program keeps. */
  class RateLimiter {
    var hits: map<string, seq<Instant>>
    ghost var history: map<string, seq<Instant>>
    ghost var last: Instant

    constructor (start: Instant)
      ensures Valid() && last == start && forall ip :: Admitted(ip) == []
    {
      hits, history, last := map[], map[], start;
    }

    function Kept(ip: string): seq<Instant>
      reads `hits
    {
      if ip in hits then hits[ip] else []
    }

    ghost function Admitted(ip: string): seq<Instant>
      reads `history
    {
      if ip in history then history[ip] else []
    }

    ghost predicate Valid()
      reads this
    {
      forall ip :: AddressOk(Kept(ip), Admitted(ip), last)
    }

    /** Admit, or refuse with 429 and keep nothing. */
    method Admit(ip: string, now: Instant) returns (ok: bool)
      requires Valid() && last <= now
      modifies this
      ensures Valid() && last == now
      ensures ok <==> |Recent(old(Admitted(ip)), now)| < LIMIT
      ensures Admitted(ip) == if ok then old(Admitted(ip)) + [now] else old(Admitted(ip))
      ensures forall other :: other != ip ==> Admitted(other) == old(Admitted(other)) && Kept(other) == old(Kept(other))
    {
      hide AddressOk, Recent;
      ghost var full := Admitted(ip);
      var kept := Kept(ip);
      var recent := Prune(kept, now);
      SameRecent(kept, full, last, now);
      forall other ensures AddressOk(Kept(other), Admitted(other), now) {
        Later(Kept(other), Admitted(other), last, now);
      }
      if |recent| >= LIMIT {
        last := now;
        return false;
      }
      OneMore(kept, full, last, now);
      label before:
      hits := hits[ip := recent + [now]];
      history := history[ip := full + [now]];
      last := now;
      forall other ensures AddressOk(Kept(other), Admitted(other), now) {
        if other == ip {
          assert Kept(other) == recent + [now] && Admitted(other) == full + [now];
        } else {
          assert Kept(other) == old@before(Kept(other)) && Admitted(other) == old@before(Admitted(other));
        }
      }
      ok := true;
    }
  }

  /** `[t for t in kept if now - t < 3600]` */
  method Prune(kept: seq<Instant>, now: Instant) returns (recent: seq<Instant>)
    ensures recent == Recent(kept, now)
  {
    recent := [];
    for i := 0 to |kept|
      invariant recent == Recent(kept[..i], now)
    {
      assert kept[..i + 1][..i] == kept[..i];
      if now - kept[i] < WINDOW {
        recent := recent + [kept[i]];
      }
    }
    assert kept[..|kept|] == kept;
  }

  lemma SameRecent(kept: seq<Instant>, full: seq<Instant>, last: Instant, now: Instant)
    requires AddressOk(kept, full, last) && last <= now
    ensures Recent(kept, now) == Recent(full, now)
  {
  }

  /** The full history is ordered and metered, and the kept list agrees with it on the last hour, now and later. */
  ghost predicate AddressOk(kept: seq<Instant>, full: seq<Instant>, last: Instant) {
    Ordered(full, last) && Metered(full) && AgreesFrom(kept, full, last)
  }

  /** At every instant from `from` on, the two lists have the same recent members. */
  ghost predicate AgreesFrom(kept: seq<Instant>, full: seq<Instant>, from: Instant) {
    forall t :: from <= t ==> Recent(kept, t) == Recent(full, t)
  }

  lemma Later(kept: seq<Instant>, full: seq<Instant>, from: Instant, now: Instant)
    requires AddressOk(kept, full, from) && from <= now
    ensures AddressOk(kept, full, now)
  {
  }

  /** Pruning and appending keeps agreement, order and metering. */
  lemma OneMore(kept: seq<Instant>, full: seq<Instant>, from: Instant, now: Instant)
    requires AddressOk(kept, full, from) && from <= now && |Recent(full, now)| < LIMIT
    ensures AddressOk(Recent(kept, now) + [now], full + [now], now)
  {
    StillMetered(full, now);
    StillAgrees(kept, full, from, now);
    hide Recent, Metered, AgreesFrom;
    assert Ordered(full + [now], now);
  }

  lemma StillAgrees(kept: seq<Instant>, full: seq<Instant>, from: Instant, now: Instant)
    requires AgreesFrom(kept, full, from) && from <= now
    ensures AgreesFrom(Recent(kept, now) + [now], full + [now], now)
  {
    hide Recent;
    forall t | now <= t ensures Recent(Recent(kept, now) + [now], t) == Recent(full + [now], t) {
      RecentAppend(Recent(kept, now), now, t);
      RecentAppend(full, now, t);
      RecentOfRecent(kept, now, t);
    }
  }

  lemma StillMetered(full: seq<Instant>, now: Instant)
    requires Metered(full) && |Recent(full, now)| < LIMIT
    ensures Metered(full + [now])
  {
    hide Recent;
    var more := full + [now];
    forall i | 0 <= i < |more| ensures |Recent(more[..i], more[i])| < LIMIT {
      if i < |full| {
        assert more[..i] == full[..i];
      } else {
        assert more[..i] == full;
      }
    }
  }
}
