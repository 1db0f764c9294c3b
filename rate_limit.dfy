/**
 * The back end's per-user daily quotas (`AuthService`'s rate limiting): an
 * in-memory counter per user and endpoint type, reset whenever the day
 * changes. The day is a parameter (`today`, as the `YYYY-MM-DD` text).
 */
module RateLimit {
  import opened Wrappers
  import opened Types

  const AiCalls := "ai_calls"
  const EmailSends := "email_sends"
  const PdfUploads := "pdf_uploads"

  const DefaultAiCalls := 50
  const DefaultEmailSends := 20
  const DefaultPdfUploads := 10

  predicate IsKnown(endpoint: string) {
    endpoint == AiCalls || endpoint == EmailSends || endpoint == PdfUploads
  }

  /** One user's record: the three `*_today` counters and `last_reset`. */
  datatype UserData = UserData(aiCalls: int, emailSends: int, pdfUploads: int, lastReset: string)

  function Fresh(today: string): UserData {
    UserData(0, 0, 0, today)
  }

  /** `user_data.get(f"{endpoint}_today", 0)`. */
  function CountOf(d: UserData, endpoint: string): int {
    if endpoint == AiCalls then d.aiCalls
    else if endpoint == EmailSends then d.emailSends
    else if endpoint == PdfUploads then d.pdfUploads
    else 0
  }

  /** `_init_user_limits`: a new user, or a user last reset on another day, gets zeroed counters. */
  function AfterInit(limits: map<string, UserData>, user: string, today: string): (r: map<string, UserData>)
    ensures user in r && r[user].lastReset == today
    ensures r.Keys == limits.Keys + {user}
    ensures forall u :: u in limits && u != user ==> r[u] == limits[u]
    ensures user in limits && limits[user].lastReset == today ==> r == limits
    ensures user !in limits || limits[user].lastReset != today ==> r[user] == Fresh(today)
  {
    if user in limits && limits[user].lastReset == today then limits else limits[user := Fresh(today)]
  }

  /** `+= 1` on the named counter; `None` for a counter the record does not have (a `KeyError`). */
  function Bump(d: UserData, endpoint: string): (r: Option<UserData>)
    ensures r.Some? <==> IsKnown(endpoint)
    ensures r.Some? ==> CountOf(r.value, endpoint) == CountOf(d, endpoint) + 1 && r.value.lastReset == d.lastReset
    ensures r.Some? ==> forall e :: e != endpoint ==> CountOf(r.value, e) == CountOf(d, e)
  {
    if endpoint == AiCalls then Some(d.(aiCalls := d.aiCalls + 1))
    else if endpoint == EmailSends then Some(d.(emailSends := d.emailSends + 1))
    else if endpoint == PdfUploads then Some(d.(pdfUploads := d.pdfUploads + 1))
    else None
  }

  /** The state after one `increment_usage` that finds its counter. */
  function Incremented(limits: map<string, UserData>, user: string, endpoint: string, today: string): map<string, UserData>
    requires IsKnown(endpoint)
  {
    var m := AfterInit(limits, user, today);
    m[user := Bump(m[user], endpoint).value]
  }

  /** `k` increments of one counter on one day. */
  function Repeated(limits: map<string, UserData>, user: string, endpoint: string, today: string, k: nat): map<string, UserData>
    requires IsKnown(endpoint)
  {
    if k == 0 then limits else Incremented(Repeated(limits, user, endpoint, today, k - 1), user, endpoint, today)
  }

  /**
   * From a user's first request of the day, `k` increments of one counter
   * leave that counter at `k` and every other counter at zero.
   */
  lemma {:induction false} RepeatedIncrements(limits: map<string, UserData>, user: string, endpoint: string,
                                              today: string, k: nat)
    requires IsKnown(endpoint)
    requires user !in limits || limits[user].lastReset != today
    ensures k > 0 ==> user in Repeated(limits, user, endpoint, today, k)
    ensures CountOf(AfterInit(Repeated(limits, user, endpoint, today, k), user, today)[user], endpoint) == k
    ensures forall e :: e != endpoint ==>
      CountOf(AfterInit(Repeated(limits, user, endpoint, today, k), user, today)[user], e) == 0
  {
    if k > 0 {
      RepeatedIncrements(limits, user, endpoint, today, k - 1);
    }
  }

  class AuthService {
    const aiLimit: int
    const emailLimit: int
    const pdfLimit: int
    /** `user_limits`. */
    var userLimits: map<string, UserData>

    /** The limits come from the environment's parsed values, defaulting to 50, 20 and 10. */
    constructor (aiEnv: Option<int>, emailEnv: Option<int>, pdfEnv: Option<int>)
      ensures aiLimit == (if aiEnv.Some? then aiEnv.value else DefaultAiCalls)
      ensures emailLimit == (if emailEnv.Some? then emailEnv.value else DefaultEmailSends)
      ensures pdfLimit == (if pdfEnv.Some? then pdfEnv.value else DefaultPdfUploads)
      ensures userLimits == map[]
    {
      aiLimit := if aiEnv.Some? then aiEnv.value else DefaultAiCalls;
      emailLimit := if emailEnv.Some? then emailEnv.value else DefaultEmailSends;
      pdfLimit := if pdfEnv.Some? then pdfEnv.value else DefaultPdfUploads;
      userLimits := map[];
    }

    /** `self.rate_limits.get(endpoint, 0)`. */
    function LimitOf(endpoint: string): (n: int)
      ensures !IsKnown(endpoint) ==> n == 0
    {
      if endpoint == AiCalls then aiLimit
      else if endpoint == EmailSends then emailLimit
      else if endpoint == PdfUploads then pdfLimit
      else 0
    }

    method InitUserLimits(user: string, today: string)
      modifies this
      ensures userLimits == AfterInit(old(userLimits), user, today)
    {
      if user !in userLimits {
        userLimits := userLimits[user := UserData(0, 0, 0, "")];
        // an empty record has no `last_reset`, so it is reset below
        userLimits := userLimits[user := Fresh(today)];
      } else if userLimits[user].lastReset != today {
        userLimits := userLimits[user := Fresh(today)];
      }
    }

    /**
     * `(is_allowed, current_count, limit)`: allowed exactly while the count
     * is below the limit. Nothing changes beyond the day reset.
     */
    method CheckRateLimit(user: string, endpoint: string, today: string) returns (allowed: bool, count: int, limit: int)
      modifies this
      ensures userLimits == AfterInit(old(userLimits), user, today)
      ensures count == CountOf(userLimits[user], endpoint) && limit == LimitOf(endpoint)
      ensures allowed <==> count < limit
      ensures !IsKnown(endpoint) ==> !allowed && count == 0 && limit == 0
      ensures user !in old(userLimits) ==> count == 0 && (allowed <==> LimitOf(endpoint) > 0)
    {
      InitUserLimits(user, today);
      var data := userLimits[user];
      count := CountOf(data, endpoint);
      limit := LimitOf(endpoint);
      allowed := count < limit;
    }

    /** Raises the named counter by one; an unknown type fails after the day reset. */
    method IncrementUsage(user: string, endpoint: string, today: string) returns (r: Result<(), string>)
      modifies this
      ensures r.Ok? <==> IsKnown(endpoint)
      ensures r.Ok? ==> userLimits == Incremented(old(userLimits), user, endpoint, today)
      ensures r.Err? ==> userLimits == AfterInit(old(userLimits), user, today) && r.error == endpoint + "_today"
    {
      InitUserLimits(user, today);
      var bumped := Bump(userLimits[user], endpoint);
      if bumped.None? {
        return Err(endpoint + "_today");
      }
      userLimits := userLimits[user := bumped.value];
      r := Ok(());
    }

    /** Used and limit for the three counters, and the day of the last reset. */
    method GetUserUsage(user: string, today: string) returns (usage: UsageStats)
      modifies this
      ensures userLimits == AfterInit(old(userLimits), user, today)
      ensures usage.aiCalls == Usage(CountOf(userLimits[user], AiCalls), aiLimit)
      ensures usage.emailSends == Usage(CountOf(userLimits[user], EmailSends), emailLimit)
      ensures usage.pdfUploads == Usage(CountOf(userLimits[user], PdfUploads), pdfLimit)
      ensures usage.lastReset == today
    {
      InitUserLimits(user, today);
      var data := userLimits[user];
      usage := UsageStats(Usage(data.aiCalls, aiLimit), Usage(data.emailSends, emailLimit),
                          Usage(data.pdfUploads, pdfLimit), data.lastReset);
    }
  }

  /**
   * With limit `n`, a user's first check on a day is allowed when `n > 0`,
   * and after `n` increments that day the check is denied at count `n`.
   */
  lemma DeniedAtTheLimit(limits: map<string, UserData>, user: string, endpoint: string, today: string, n: nat)
    requires IsKnown(endpoint)
    requires user !in limits || limits[user].lastReset != today
    ensures var d := AfterInit(Repeated(limits, user, endpoint, today, n), user, today)[user];
      CountOf(d, endpoint) == n && !(CountOf(d, endpoint) < n)
    ensures forall k :: 0 <= k < n ==>
      CountOf(AfterInit(Repeated(limits, user, endpoint, today, k), user, today)[user], endpoint) < n
  {
    RepeatedIncrements(limits, user, endpoint, today, n);
    forall k | 0 <= k < n
      ensures CountOf(AfterInit(Repeated(limits, user, endpoint, today, k), user, today)[user], endpoint) < n
    {
      RepeatedIncrements(limits, user, endpoint, today, k);
    }
  }
}
