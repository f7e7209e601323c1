/**
 * The per-user cooldown gate shared by /daily, /beg, /raid and /bank_deposit,
 * and the "h hour(s) m minute(s) s second(s)" text that tells the user how
 * long is left.
 */
module Cooldown {
  import opened Base
  import opened Text
  import GameConfig

  /**
   * `lastUsed && (now - lastUsed < cooldownMs)`: a missing timestamp is
   * `undefined` and 0 is falsy, so neither ever blocks.
   */
  predicate OnCooldown(lastUsed: Option<int>, now: int, cooldownMs: int): (b: bool)
    ensures lastUsed.None? || lastUsed == Some(0) ==> !b
    ensures lastUsed.Some? && lastUsed.value != 0 ==> (b <==> now < lastUsed.value + cooldownMs)
  {
    lastUsed.Some? && lastUsed.value != 0 && now - lastUsed.value < cooldownMs
  }

  /** `cooldownMs - (now - lastUsed)`, as computed inside the gate. */
  function RemainingMs(lastUsed: Option<int>, now: int, cooldownMs: int): (t: int)
    requires OnCooldown(lastUsed, now, cooldownMs)
    ensures t > 0
    ensures now + t == lastUsed.value + cooldownMs
    ensures now >= lastUsed.value ==> t <= cooldownMs
  {
    cooldownMs - (now - lastUsed.value)
  }

  /** A duration split into whole hours, minutes and seconds. */
  datatype Hms = Hms(hours: int, minutes: int, seconds: int)

  function Millis(d: Hms): int {
    d.hours * GameConfig.Hour + d.minutes * GameConfig.Minute + d.seconds * GameConfig.Second
  }

  /** The split of /daily, /raid and /bank_deposit: floor of hours, then minutes and seconds of the remainder. */
  function SplitHms(t: int): (d: Hms)
    requires t >= 0
    ensures d.hours >= 0 && 0 <= d.minutes < 60 && 0 <= d.seconds < 60
    ensures Millis(d) <= t < Millis(d) + GameConfig.Second
  {
    var hours := t / GameConfig.Hour;
    var minutes := (t % GameConfig.Hour) / GameConfig.Minute;
    var seconds := (t % GameConfig.Minute) / GameConfig.Second;
    MinutesOfRemainder(t);
    Hms(hours, minutes, seconds)
  }

  /** The minute remainder of `t` is the minute remainder of its hour remainder, an hour being 60 whole minutes. */
  lemma MinutesOfRemainder(t: int)
    requires t >= 0
    ensures t % GameConfig.Hour == (t % GameConfig.Hour) / GameConfig.Minute * GameConfig.Minute + t % GameConfig.Minute
  {
    var q := t / GameConfig.Hour;
    var r := t % GameConfig.Hour;
    var m := r / GameConfig.Minute;
    var rest := r % GameConfig.Minute;
    assert r == m * GameConfig.Minute + rest;
    assert t == (60 * q + m) * GameConfig.Minute + rest;
    assert t % GameConfig.Minute == rest;
  }

  /** The split of /beg: no hours, so the minutes are not reduced modulo an hour. */
  function SplitMs(t: int): (d: Hms)
    requires t >= 0
    ensures d.hours == 0 && d.minutes >= 0 && 0 <= d.seconds < 60
    ensures Millis(d) <= t < Millis(d) + GameConfig.Second
    ensures t <= GameConfig.BegCooldownMs ==> d.minutes <= 5
  {
    Hms(0, t / GameConfig.Minute, (t % GameConfig.Minute) / GameConfig.Second)
  }

  /** Below an hour both splits agree. */
  lemma SplitsAgreeBelowAnHour(t: int)
    requires 0 <= t < GameConfig.Hour
    ensures SplitHms(t) == SplitMs(t)
  {
  }

  /** One `${n} unit ` piece, present only when `n > 0`. */
  function Part(n: int, unit: string): (r: string)
    ensures r == [] <==> n <= 0
    ensures r == [] || IsDigit(r[0])
  {
    if n > 0 then NatToString(n) + " " + unit + " " else ""
  }

  /** The text built by appending the non-zero parts, each followed by a space, and then trimming. */
  function DurationText(d: Hms): (text: string)
    ensures text == [] <==> d.hours <= 0 && d.minutes <= 0 && d.seconds <= 0
    ensures text == [] || IsDigit(text[0])
  {
    var raw := Part(d.hours, "hour(s)") + Part(d.minutes, "minute(s)") + Part(d.seconds, "second(s)");
    assert raw == [] || IsDigit(raw[0]);
    TrimKeepsFirst(raw);
    Trim(raw)
  }

  /** The remaining time only prints as nothing when less than a second is left ("again in ."). */
  lemma DurationTextEmptyBelowOneSecond(t: int)
    requires t >= 0
    ensures DurationText(SplitHms(t)) == [] <==> t < GameConfig.Second
    ensures DurationText(SplitMs(t)) == [] <==> t < GameConfig.Second
  {
    var d, e := SplitHms(t), SplitMs(t);
    if t < GameConfig.Second {
      assert d.hours == 0 && d.minutes == 0 && d.seconds == 0;
      assert e.minutes == 0 && e.seconds == 0;
    } else {
      assert d.hours > 0 || d.minutes > 0 || d.seconds > 0;
      assert e.minutes > 0 || e.seconds > 0;
    }
  }

  /** One minute after begging, four minutes are left and the reply says so. */
  lemma BegOneMinuteLater(lastUsed: int)
    requires lastUsed != 0
    ensures OnCooldown(Some(lastUsed), lastUsed + GameConfig.Minute, GameConfig.BegCooldownMs)
    ensures RemainingMs(Some(lastUsed), lastUsed + GameConfig.Minute, GameConfig.BegCooldownMs) == 4 * GameConfig.Minute
    ensures DurationText(SplitMs(4 * GameConfig.Minute)) == "4 minute(s)"
  {
    assert SplitMs(4 * GameConfig.Minute) == Hms(0, 4, 0);
    FourMinutesText();
  }

  lemma FourMinutesText()
    ensures DurationText(Hms(0, 4, 0)) == "4 minute(s)"
  {
    assert NatToString(4) == "4";
    assert Part(4, "minute(s)") == "4 minute(s) ";
    assert Part(0, "hour(s)") + Part(4, "minute(s)") + Part(0, "second(s)") == "4 minute(s) ";
    TrimFourMinutes();
  }

  lemma TrimFourMinutes()
    ensures Trim("4 minute(s) ") == "4 minute(s)"
  {
    var raw := "4 minute(s) ";
    assert !IsSpace(raw[0]);
    assert TrimStart(raw) == raw;
    assert IsSpace(raw[|raw| - 1]);
    assert raw[..|raw| - 1] == "4 minute(s)";
    assert !IsSpace(')');
  }

  /** A claim made with a clock reading of 0 is forgotten: the next one is never blocked. */
  lemma ZeroTimestampNeverBlocks(now: int, cooldownMs: int)
    ensures !OnCooldown(Some(0), now, cooldownMs)
  {
  }

  /** With a recorded non-zero claim, a later one is blocked exactly until the cooldown has passed. */
  lemma BlockedUntilCooldownPasses(lastUsed: int, now: int, cooldownMs: int)
    requires lastUsed != 0
    ensures OnCooldown(Some(lastUsed), now, cooldownMs) <==> now < lastUsed + cooldownMs
  {
  }
}
