/** The sync indicator (`SyncStatus`): an icon, a text and a colour chosen from the sync flags
    with one shared priority, and for a signed-in, idle, online user the time since the last
    sync in whole minutes, hours or days. Times are integer milliseconds since the epoch. */
module SyncStatus {
  import opened Common
  import Text

  /** The four states the indicator distinguishes. */
  datatype Status = Offline | Syncing | LocalOnly | Synced

  /** The shared priority, stated declaratively: offline beats syncing, syncing beats guest
      mode, and only a signed-in, idle, online user counts as synced. */
  function Classify(offline: bool, syncing: bool, isGuest: bool): (st: Status)
    ensures st == Offline <==> offline
    ensures st == Syncing <==> !offline && syncing
    ensures st == LocalOnly <==> !offline && !syncing && isGuest
    ensures st == Synced <==> !offline && !syncing && !isGuest
  {
    if offline then Offline else if syncing then Syncing else if isGuest then LocalOnly else Synced
  }

  datatype Icon = WifiOff | Spinner | CloudOff | Cloud

  /** `getStatusIcon`. */
  function StatusIcon(offline: bool, syncing: bool, isGuest: bool): (i: Icon)
    ensures i == IconOf(Classify(offline, syncing, isGuest))
  {
    if offline then WifiOff
    else if syncing then Spinner
    else if isGuest then CloudOff
    else Cloud
  }

  /** `getStatusColor`. */
  function StatusColor(offline: bool, syncing: bool, isGuest: bool): (c: string)
    ensures c == ColorOf(Classify(offline, syncing, isGuest))
  {
    if offline then "text-red-500"
    else if syncing then "text-blue-500"
    else if isGuest then "text-gray-500"
    else "text-green-500"
  }

  function IconOf(st: Status): Icon {
    match st
    case Offline => WifiOff
    case Syncing => Spinner
    case LocalOnly => CloudOff
    case Synced => Cloud
  }

  function ColorOf(st: Status): string {
    match st
    case Offline => "text-red-500"
    case Syncing => "text-blue-500"
    case LocalOnly => "text-gray-500"
    case Synced => "text-green-500"
  }

  // ---------------------------------------------------------------------------
  // Time since the last sync

  const MinuteMs := 60000
  const HourMs := 3600000
  const DayMs := 86400000

  /** How long ago the last sync was, as the indicator words it. */
  datatype Age = JustNow | MinutesAgo(minutes: nat) | HoursAgo(hours: nat) | DaysAgo(days: nat)

  /** `x / d` is `q` exactly when `q * d <= x < (q + 1) * d`; `Math.floor` of a quotient by a
      positive divisor is Dafny's division. */
  lemma FloorBy60(q: int)
    ensures (q / 60) * 60 <= q < (q / 60 + 1) * 60
  {
  }

  lemma FloorBy24(q: int)
    ensures (q / 24) * 24 <= q < (q / 24 + 1) * 24
  {
  }

  /** The whole hours of the whole minutes are the whole hours. */
  lemma HoursOfMinutes(diff: int)
    ensures (diff / MinuteMs) / 60 * HourMs <= diff < ((diff / MinuteMs) / 60 + 1) * HourMs
  {
    var m := diff / MinuteMs;
    FloorBy60(m);
  }

  /** The whole days of the whole hours are the whole days. */
  lemma DaysOfHours(diff: int)
    ensures (diff / MinuteMs) / 60 / 24 * DayMs <= diff < ((diff / MinuteMs) / 60 / 24 + 1) * DayMs
  {
    var h := (diff / MinuteMs) / 60;
    HoursOfMinutes(diff);
    FloorBy24(h);
  }

  /** The age of a sync `diff` milliseconds ago: minutes `floor(diff / 60000)`; under one minute
      (also a sync stamped in the future) is "just now"; from 60 minutes on, whole hours; from
      24 hours on, whole days. The count shown is the number of whole units elapsed. */
  function AgeOf(diff: int): (a: Age)
    ensures a.JustNow? <==> diff < MinuteMs
    ensures a.MinutesAgo? <==> MinuteMs <= diff < HourMs
    ensures a.HoursAgo? <==> HourMs <= diff < DayMs
    ensures a.DaysAgo? <==> DayMs <= diff
    ensures a.MinutesAgo? ==> a.minutes * MinuteMs <= diff < (a.minutes + 1) * MinuteMs
    ensures a.HoursAgo? ==> a.hours * HourMs <= diff < (a.hours + 1) * HourMs
    ensures a.DaysAgo? ==> a.days * DayMs <= diff < (a.days + 1) * DayMs
  {
    var minutes := diff / MinuteMs;
    if minutes < 1 then JustNow
    else if minutes < 60 then MinutesAgo(minutes)
    else
      var hours := minutes / 60;
      HoursOfMinutes(diff);
      if hours < 24 then HoursAgo(hours)
      else
        DaysOfHours(diff);
        DaysAgo(hours / 24)
  }

  /** The ranges are consecutive: a later sync never reads as longer ago. */
  lemma AgeMonotone(d1: int, d2: int)
    requires d1 <= d2
    ensures Rank(AgeOf(d1)) <= Rank(AgeOf(d2))
  {
  }

  /** The age as a single count of elapsed time, for ordering: minutes below an hour, then
      hours, then days, each range above the previous. */
  function Rank(a: Age): int {
    match a
    case JustNow => 0
    case MinutesAgo(m) => m
    case HoursAgo(h) => 60 + h
    case DaysAgo(d) => 84 + d
  }

  function AgeText(a: Age): string {
    match a
    case JustNow => "Just synced"
    case MinutesAgo(m) => "Synced " + Text.NatToString(m) + "m ago"
    case HoursAgo(h) => "Synced " + Text.NatToString(h) + "h ago"
    case DaysAgo(d) => "Synced " + Text.NatToString(d) + "d ago"
  }

  predicate AllDigits(s: string) {
    forall i :: 0 <= i < |s| ==> Text.IsDigit(s[i])
  }

  /** Reading an age back from the indicator's text: "Just synced", or "Synced ", a count, a
      unit letter and " ago". */
  function ReadAge(t: string): Option<Age> {
    if t == "Just synced" then Some(JustNow)
    else if |t| >= 13 && t[..7] == "Synced " && t[|t| - 4..] == " ago" && AllDigits(t[7..|t| - 5]) then
      var n := Text.ParseNat(t[7..|t| - 5]);
      var unit := t[|t| - 5];
      if unit == 'm' then Some(MinutesAgo(n))
      else if unit == 'h' then Some(HoursAgo(n))
      else if unit == 'd' then Some(DaysAgo(n))
      else None
    else None
  }

  lemma ReadCount(n: nat, u: char)
    ensures var t := "Synced " + Text.NatToString(n) + [u] + " ago";
      && |t| >= 13 && t[..7] == "Synced " && t[|t| - 4..] == " ago"
      && t[7..|t| - 5] == Text.NatToString(n) && t[|t| - 5] == u
  {
    var s := Text.NatToString(n);
    var t := "Synced " + s + [u] + " ago";
    assert |t| == 12 + |s|;
    assert t[..7] == "Synced ";
    assert t[7..|t| - 5] == s;
    assert t[|t| - 4..] == " ago";
  }

  /** A count with a unit letter reads back as that count in that unit. */
  lemma ReadUnit(n: nat, u: char)
    requires u == 'm' || u == 'h' || u == 'd'
    ensures ReadAge("Synced " + Text.NatToString(n) + [u] + " ago")
         == Some(if u == 'm' then MinutesAgo(n) else if u == 'h' then HoursAgo(n) else DaysAgo(n))
  {
    ReadCount(n, u);
    Text.NatToStringRoundTrip(n);
    var t := "Synced " + Text.NatToString(n) + [u] + " ago";
    assert t != "Just synced" by {
      assert t[0] != "Just synced"[0];
    }
  }

  /** The text loses nothing: the age can be read back from it. */
  lemma AgeTextRoundTrip(a: Age)
    ensures ReadAge(AgeText(a)) == Some(a)
  {
    match a
    case JustNow =>
    case MinutesAgo(m) =>
      assert AgeText(a) == "Synced " + Text.NatToString(m) + ['m'] + " ago";
      ReadUnit(m, 'm');
    case HoursAgo(h) =>
      assert AgeText(a) == "Synced " + Text.NatToString(h) + ['h'] + " ago";
      ReadUnit(h, 'h');
    case DaysAgo(d) =>
      assert AgeText(a) == "Synced " + Text.NatToString(d) + ['d'] + " ago";
      ReadUnit(d, 'd');
  }

  /** `getStatusText`, with `now` the clock reading and `lastSync` absent when there was none. */
  function StatusText(offline: bool, syncing: bool, isGuest: bool, lastSync: Option<int>, now: int): string {
    if offline then "Offline"
    else if syncing then "Syncing..."
    else if isGuest then "Local only"
    else if lastSync.Some? then AgeText(AgeOf(now - lastSync.value))
    else "Synced"
  }

  /** Icon, colour and text all follow the one priority: the flags decide the state, and only
      the synced state looks at the clock. */
  lemma PanelFollowsPriority(offline: bool, syncing: bool, isGuest: bool, lastSync: Option<int>, now: int)
    ensures var st := Classify(offline, syncing, isGuest);
      && StatusIcon(offline, syncing, isGuest) == IconOf(st)
      && StatusColor(offline, syncing, isGuest) == ColorOf(st)
      && StatusText(offline, syncing, isGuest, lastSync, now)
         == match st
            case Offline => "Offline"
            case Syncing => "Syncing..."
            case LocalOnly => "Local only"
            case Synced => if lastSync.Some? then AgeText(AgeOf(now - lastSync.value)) else "Synced"
  {
  }

  /** A synced user sees the whole minutes, hours or days since the last sync, and can read
      them back from the text. */
  lemma SyncedTextShowsAge(lastSync: int, now: int)
    ensures var a := ReadAge(StatusText(false, false, false, Some(lastSync), now));
      && a.Some?
      && (a.value.JustNow? <==> now - lastSync < MinuteMs)
      && (a.value.MinutesAgo? ==> a.value.minutes * MinuteMs <= now - lastSync < (a.value.minutes + 1) * MinuteMs)
      && (a.value.HoursAgo? ==> a.value.hours * HourMs <= now - lastSync < (a.value.hours + 1) * HourMs)
      && (a.value.DaysAgo? ==> a.value.days * DayMs <= now - lastSync < (a.value.days + 1) * DayMs)
  {
    SyncedTextReadsBack(lastSync, now);
  }

  /** A synced user's text reads back as the age of the last sync. */
  lemma SyncedTextReadsBack(lastSync: int, now: int)
    ensures ReadAge(StatusText(false, false, false, Some(lastSync), now)) == Some(AgeOf(now - lastSync))
  {
    AgeTextRoundTrip(AgeOf(now - lastSync));
  }

  /** Ninety minutes read as one hour; a sync stamped in the future reads as just now. */
  lemma AgeExamples()
    ensures AgeOf(90 * MinuteMs) == HoursAgo(1)
    ensures AgeOf(59 * MinuteMs) == MinutesAgo(59)
    ensures AgeOf(-5000) == JustNow
    ensures AgeOf(3 * DayMs + 1) == DaysAgo(3)
  {
  }
}
