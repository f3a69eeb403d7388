/**
 * The one-second countdown that MatchingPairs and TimedQuiz both drive from
 * `setInterval`, and the `m:ss` clock text both of them render with `formatTime`.
 * The interval itself is not modelled: each callback is one call of Tick.
 */
module Countdown {
  import opened Wrappers
  import opened Text

  /** The value the state updater returns, and whether it called the completion handler. */
  datatype TickResult = TickResult(remaining: int, expired: bool)

  /** One interval callback: at one second or less the clock stops at 0 and the game ends. */
  function Tick(prev: int): (r: TickResult)
    ensures r.remaining >= 0
    ensures r.expired <==> r.remaining == 0
    ensures r.expired <==> prev <= 1
    ensures !r.expired ==> r.remaining == prev - 1
  {
    if prev <= 1 then TickResult(0, true) else TickResult(prev - 1, false)
  }

  /** The clock after k callbacks, or None once a callback has ended the game (the interval is then cleared). */
  function After(t: int, k: nat): Option<int> {
    if k == 0 then Some(t)
    else match After(t, k - 1)
         case None => None
         case Some(prev) => if Tick(prev).expired then None else Some(Tick(prev).remaining)
  }

  /** Starting from t >= 1 seconds, the first t - 1 callbacks count down and the t-th ends the game. */
  lemma {:induction false} ExpiresOnTick(t: int, k: nat)
    requires t >= 1 && k <= t
    ensures k < t ==> After(t, k) == Some(t - k)
    ensures k == t ==> After(t, k) == None
  {
    if k > 0 {
      ExpiresOnTick(t, k - 1);
    }
  }

  /** `formatTime`: `Math.floor(s / 60)` minutes, a colon, and `s % 60` padded to two digits. */
  function FormatTime(seconds: int): (t: string)
    ensures |t| >= 4
    ensures t[0] == '-' <==> seconds < 0
  {
    IntToString(FloorDiv(seconds, 60)) + ":" + PadStart2(IntToString(JsRem(seconds, 60)))
  }

  /** Reads `m:ss` back into seconds. */
  function ParseTime(t: string): Option<nat> {
    if |t| >= 4 && t[|t| - 3] == ':' && AllDigits(t[..|t| - 3]) && AllDigits(t[|t| - 2..])
    then Some(60 * ParseNat(t[..|t| - 3]) + ParseNat(t[|t| - 2..]))
    else None
  }

  lemma TwoDigitSeconds(r: nat)
    requires r < 60
    ensures |PadStart2(NatToString(r))| == 2
    ensures AllDigits(PadStart2(NatToString(r)))
    ensures ParseNat(PadStart2(NatToString(r))) == r
  {
    ParseNatToString(r);
    if r < 10 {
      var p := PadStart2(NatToString(r));
      assert p == "0" + NatToString(r);
      assert p[..1] == "0";
      assert ParseNat(p[..1]) == ParseNat("") * 10 + 0;
    }
  }

  lemma FormatTimeShape(seconds: nat)
    ensures FormatTime(seconds) == NatToString(seconds / 60) + ":" + PadStart2(NatToString(seconds % 60))
  {
  }

  /** Where the pieces of `ms + ":" + rs` sit when `rs` has two characters. */
  lemma JoinedPieces(ms: string, rs: string)
    requires |rs| == 2
    ensures var t := ms + ":" + rs; |t| == |ms| + 3 && t[..|t| - 3] == ms && t[|t| - 3] == ':' && t[|t| - 2..] == rs
  {
    var t := ms + ":" + rs;
    assert t[..|ms|] == ms;
    assert t[|ms| + 1..] == rs;
  }

  /** ParseTime of a text whose pieces are known. */
  lemma ParsePieces(t: string, head: string, tail: string)
    requires |t| >= 4 && t[|t| - 3] == ':' && t[..|t| - 3] == head && t[|t| - 2..] == tail
    requires AllDigits(head) && AllDigits(tail)
    ensures ParseTime(t) == Some(60 * ParseNat(head) + ParseNat(tail))
  {
  }

  lemma ParseJoined(ms: string, rs: string)
    requires 1 <= |ms| && AllDigits(ms) && |rs| == 2 && AllDigits(rs)
    ensures ParseTime(ms + ":" + rs) == Some(60 * ParseNat(ms) + ParseNat(rs))
  {
    JoinedPieces(ms, rs);
    ParsePieces(ms + ":" + rs, ms, rs);
  }

  /**
   * For a non-negative clock value the text determines the value: minutes times 60
   * plus the two-digit seconds give back exactly `seconds`.
   */
  lemma {:induction false} ParseFormatTime(seconds: nat)
    ensures ParseTime(FormatTime(seconds)) == Some(seconds)
  {
    var q, r := seconds / 60, seconds % 60;
    calc {
      ParseTime(FormatTime(seconds));
    == { FormatTimeShape(seconds); }
      ParseTime(NatToString(q) + ":" + PadStart2(NatToString(r)));
    == { ParseClock(q, r); }
      Some(60 * q + r);
    == { MinutesAndSeconds(seconds); }
      Some(seconds);
    }
  }

  lemma MinutesAndSeconds(seconds: nat)
    ensures 60 * (seconds / 60) + seconds % 60 == seconds && seconds % 60 < 60
  {
  }

  /** A clock text built from whole minutes and seconds below 60 reads back as their total. */
  lemma ParseClock(q: nat, r: nat)
    requires r < 60
    ensures ParseTime(NatToString(q) + ":" + PadStart2(NatToString(r))) == Some(60 * q + r)
  {
    TwoDigitSeconds(r);
    ParseNatToString(q);
    ParseJoined(NatToString(q), PadStart2(NatToString(r)));
  }
}
