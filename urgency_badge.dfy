/**
 * The validity badge of src/components/quotes/urgency-badge.tsx: the days
 * left before a quote expires, rounded up, decide whether a badge shows,
 * how urgent it looks and what it says. Times are integer milliseconds; the
 * creation time and the current time are inputs.
 */
module UrgencyBadge {
  import opened Wrappers
  import Numbers

  const DayMs: int := 1000 * 60 * 60 * 24

  /** `validityDays = 7`: the default applies when no value is passed. */
  function Validity(validityDays: Option<int>): (d: int)
    ensures validityDays.None? ==> d == 7
    ensures validityDays.Some? ==> d == validityDays.value
  {
    validityDays.GetOr(7)
  }

  /** `Math.ceil(x / (1000 * 60 * 60 * 24))` for a whole number of milliseconds. */
  function CeilDays(x: int): (n: int)
    ensures (n - 1) * DayMs < x <= n * DayMs
  {
    -((-x) / DayMs)
  }

  /** `daysRemaining`: whole days, rounded up, from now to the creation time plus the
      validity. */
  function DaysRemaining(createdAtMs: int, validityDays: int, nowMs: int): int {
    CeilDays(createdAtMs + validityDays * DayMs - nowMs)
  }

  /** A quote just created has its whole validity left, and each further day takes one
      day off. */
  lemma DaysRemainingElapsed(createdAtMs: int, validityDays: int, days: int)
    ensures DaysRemaining(createdAtMs, validityDays, createdAtMs + days * DayMs) == validityDays - days
  {
    var x := createdAtMs + validityDays * DayMs - (createdAtMs + days * DayMs);
    assert x == (validityDays - days) * DayMs;
    CeilDaysExact(validityDays - days);
  }

  lemma CeilDaysExact(k: int)
    ensures CeilDays(k * DayMs) == k
  {
  }

  /** The later the moment, the fewer days remain. */
  lemma DaysRemainingAntitone(createdAtMs: int, validityDays: int, m: int, n: int)
    requires m <= n
    ensures DaysRemaining(createdAtMs, validityDays, n) <= DaysRemaining(createdAtMs, validityDays, m)
  {
  }

  datatype Level = Urgent | ExpiringSoon | Normal

  /** What is drawn: nothing for an expired quote, else the level, the heading and the
      days text. */
  datatype Badge = NoBadge | Shown(level: Level, heading: string, remaining: string)

  /** `isUrgent` and `isExpiringSoon` as one value. */
  function LevelOf(days: int): (l: Level)
    ensures l == Urgent <==> days <= 2
    ensures l == ExpiringSoon <==> 2 < days <= 5
    ensures l == Normal <==> days > 5
  {
    if days <= 2 then Urgent else if days <= 5 then ExpiringSoon else Normal
  }

  /** `daysRemaining === 1 ? 'Expira amanhã' : `${daysRemaining} dias restantes``. */
  function RemainingText(days: int): (s: string)
    ensures days == 1 ==> s == "Expira amanhã"
    ensures days != 1 ==> s == Numbers.IntToString(days) + " dias restantes"
  {
    if days == 1 then "Expira amanhã" else Numbers.IntToString(days) + " dias restantes"
  }

  function BadgeFor(days: int): (b: Badge)
    ensures b.NoBadge? <==> days < 0
    ensures b.Shown? ==> b.level == LevelOf(days) && b.remaining == RemainingText(days)
    ensures b.Shown? ==> (b.heading == "⚠️ Oferta expira em breve!" <==> b.level == Urgent)
    ensures b.Shown? && b.level != Urgent ==> b.heading == "Validade do Orçamento"
  {
    if days < 0 then NoBadge
    else
      var level := LevelOf(days);
      Shown(level, if level == Urgent then "⚠️ Oferta expira em breve!" else "Validade do Orçamento",
            RemainingText(days))
  }

  /** The badge a quote shows at a given moment. */
  function UrgencyBadgeAt(createdAtMs: int, validityDays: Option<int>, nowMs: int): Badge {
    BadgeFor(DaysRemaining(createdAtMs, Validity(validityDays), nowMs))
  }

  /** A shown badge is urgent for 0 to 2 days left, expiring soon for 3 to 5, and the
      texts of two different day counts differ. */
  lemma BadgeLevels(days: int, other: int)
    ensures BadgeFor(days).Shown? && BadgeFor(days).level == Urgent <==> 0 <= days <= 2
    ensures BadgeFor(days).Shown? && BadgeFor(days).level == ExpiringSoon <==> 3 <= days <= 5
    ensures days != other ==> RemainingText(days) != RemainingText(other)
  {
    if days != other && days != 1 && other != 1 {
      var a := Numbers.IntToString(days);
      var b := Numbers.IntToString(other);
      if a + " dias restantes" == b + " dias restantes" {
        assert a == (a + " dias restantes")[..|a|];
        assert |a| == |b|;
        assert b == (b + " dias restantes")[..|b|];
        Numbers.IntToStringInjective(days, other);
      }
    }
    if days != other && (days == 1 || other == 1) {
      var n := if days == 1 then other else days;
      var s := Numbers.IntToString(n) + " dias restantes";
      assert s[|s| - 1] == 's';
    }
  }

  /** On the day it is made, a quote with the default validity shows `7 dias restantes`
      without urgency; on its last day it shows `Expira amanhã` as urgent. */
  lemma DefaultValidityBadge(createdAtMs: int)
    ensures UrgencyBadgeAt(createdAtMs, None, createdAtMs) ==
      Shown(Normal, "Validade do Orçamento", "7 dias restantes")
    ensures UrgencyBadgeAt(createdAtMs, None, createdAtMs + 6 * DayMs) ==
      Shown(Urgent, "⚠️ Oferta expira em breve!", "Expira amanhã")
  {
    DaysRemainingElapsed(createdAtMs, 7, 0);
    assert createdAtMs + 0 * DayMs == createdAtMs;
    assert DaysRemaining(createdAtMs, 7, createdAtMs) == 7;
    assert Numbers.IntToString(7) == "7";
    assert RemainingText(7) == "7 dias restantes";
    DaysRemainingElapsed(createdAtMs, 7, 6);
    assert DaysRemaining(createdAtMs, 7, createdAtMs + 6 * DayMs) == 1;
  }
}
