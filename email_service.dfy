/**
 * Outgoing mail (backend/services/infraService/email.go): header and body
 * sanitisers, the classification of provider errors, the status recorded by
 * `SendTo`, the retry pass over the mail log, and the constructor's settings.
 * The provider's answers and the clock are inputs.
 */
module EmailService {
  import opened Wrappers
  import opened Text
  import opened Model
  import Sanitize

  // ---------------------------------------------------------------------
  // Sanitisers
  // ---------------------------------------------------------------------

  /** `escapeHeaderValue`: every line feed, then every carriage return, removed. */
  function EscapeHeaderValue(value: string): (r: string)
    ensures '\r' !in r && '\n' !in r
  {
    RemoveChar(RemoveChar(value, '\n'), '\r')
  }

  /**
   * The header escaper and the helper `SanitizeEmailField` remove the same two
   * characters in the opposite order, and agree on every input.
   */
  lemma EscapeHeaderAgreesWithSanitizeField(value: string)
    ensures EscapeHeaderValue(value) == Sanitize.SanitizeEmailField(value)
  {
    RemoveCharCommutes(value, '\n', '\r');
  }

  /** `sanitizeEmailContent`: CR LF becomes LF, then every remaining CR is removed. */
  function SanitizeEmailContent(content: string): (r: string)
    ensures '\r' !in r
  {
    RemoveChar(CollapseCrLf(content), '\r')
  }

  /** The CR LF rewrite is subsumed by the CR removal: the result is the input without CRs. */
  lemma {:induction false} SanitizeContentRemovesOnlyCr(content: string)
    ensures SanitizeEmailContent(content) == RemoveChar(content, '\r')
    decreases |content|
  {
    if content == [] {
    } else if |content| >= 2 && content[0] == '\r' && content[1] == '\n' {
      SanitizeContentRemovesOnlyCr(content[2..]);
      RemoveCharAppend("\n", CollapseCrLf(content[2..]), '\r');
      assert content[1..][1..] == content[2..];
    } else {
      SanitizeContentRemovesOnlyCr(content[1..]);
      RemoveCharAppend([content[0]], CollapseCrLf(content[1..]), '\r');
    }
  }

  lemma {:induction false} RemoveCharKeepsOtherCount(s: string, c: char, d: char)
    requires c != d
    ensures Count(RemoveChar(s, c), d) == Count(s, d)
  {
    if s != [] {
      RemoveCharKeepsOtherCount(s[1..], c, d);
      var head := if s[0] == c then [] else [s[0]];
      RemoveCharAppend(head, RemoveChar(s[1..], c), c);
      CountAppend(head, RemoveChar(s[1..], c), d);
    }
  }

  lemma {:induction false} CountAppend(a: string, b: string, c: char)
    ensures Count(a + b, c) == Count(a, c) + Count(b, c)
  {
    if a == [] {
      assert a + b == b;
    } else {
      assert (a + b)[1..] == a[1..] + b;
      CountAppend(a[1..], b, c);
    }
  }

  /** The body keeps all of its line feeds. */
  lemma SanitizeContentKeepsLineFeeds(content: string)
    ensures Count(SanitizeEmailContent(content), '\n') == Count(content, '\n')
  {
    SanitizeContentRemovesOnlyCr(content);
    RemoveCharKeepsOtherCount(content, '\r', '\n');
  }

  // ---------------------------------------------------------------------
  // Error classification
  // ---------------------------------------------------------------------

  const TEMPORARY_PATTERNS: seq<string> := [
    "connection refused", "timeout", "temporary failure", "try again", "rate limit", "too many",
    "421", "450", "451", "452", "deadline exceeded", "context deadline exceeded"]

  /** The patterns are scanned in order; the first one contained decides. */
  function ContainsAny(text: string, patterns: seq<string>): bool {
    if patterns == [] then false
    else Contains(text, patterns[0]) || ContainsAny(text, patterns[1..])
  }

  lemma {:induction false} ContainsAnyIff(text: string, patterns: seq<string>)
    ensures ContainsAny(text, patterns) <==> exists p :: p in patterns && Contains(text, p)
  {
    if patterns != [] {
      ContainsAnyIff(text, patterns[1..]);
      if ContainsAny(text, patterns) && !Contains(text, patterns[0]) {
        var p :| p in patterns[1..] && Contains(text, p);
        assert p in patterns;
      }
      if exists p :: p in patterns && Contains(text, p) {
        var p :| p in patterns && Contains(text, p);
        if p != patterns[0] {
          assert p in patterns[1..];
        }
      }
    }
  }

  /** `isTemporaryError`: the lower-cased message contains one of the temporary patterns. */
  function IsTemporaryError(message: string): bool {
    ContainsAny(ToLower(message), TEMPORARY_PATTERNS)
  }

  /** Classification in terms of positions: some pattern occurs somewhere in the lower-cased message. */
  lemma IsTemporaryErrorIff(message: string)
    ensures IsTemporaryError(message) <==>
            exists p, i :: p in TEMPORARY_PATTERNS && OccursAt(ToLower(message), p, i)
  {
    ContainsAnyIff(ToLower(message), TEMPORARY_PATTERNS);
    forall p | p in TEMPORARY_PATTERNS
      ensures Contains(ToLower(message), p) <==> exists i :: OccursAt(ToLower(message), p, i)
    {
      ContainsIff(ToLower(message), p);
    }
  }

  /** An SMTP 421 reply, in any letter case, counts as temporary. */
  lemma TemporaryExample()
    ensures IsTemporaryError("421 Busy")
  {
    var lower := ToLower("421 Busy");
    assert lower[..3] == "421";
    assert OccursAt(lower, "421", 0);
    OccursImpliesContains(lower, "421", 0);
    ContainsAnyIff(lower, TEMPORARY_PATTERNS);
    assert TEMPORARY_PATTERNS[6] == "421";
  }

  // ---------------------------------------------------------------------
  // Mail log
  // ---------------------------------------------------------------------

  datatype MailStatus = MailLogStatusDelivered | MailLogStatusTemporaryError | MailLogStatusPermanentError

  datatype MailLog = MailLog(
    id: nat,
    to: string,
    subject: string,
    body: string,
    createdAt: Time,
    updatedAt: Time,
    status: MailStatus,
    errorDescription: string,
    retryCount: nat)

  /** Status recorded for a provider answer: delivered, or temporary/permanent by the classifier. */
  function StatusFor(sendError: Option<string>): (s: MailStatus)
    ensures sendError.None? <==> s == MailLogStatusDelivered
    ensures sendError.Some? ==>
              (s == MailLogStatusTemporaryError <==> IsTemporaryError(sendError.value))
  {
    match sendError
    case None => MailLogStatusDelivered
    case Some(msg) => if IsTemporaryError(msg) then MailLogStatusTemporaryError else MailLogStatusPermanentError
  }

  /** Settings read by the constructor. */
  datatype EmailConfig = EmailConfig(maxAttempts: nat, retryIntervalMinutes: nat, maxAgeHours: nat, timeoutSeconds: nat)

  /** A setting: absent, unparsable or non-positive values keep the default. */
  function PositiveSetting(value: Option<string>, default: nat): (r: nat)
    ensures value.Some? && Atoi(value.value).Some? && Atoi(value.value).value > 0 ==> r == Atoi(value.value).value
    ensures !(value.Some? && Atoi(value.value).Some? && Atoi(value.value).value > 0) ==> r == default
  {
    match value
    case None => default
    case Some(s) =>
      match Atoi(s)
      case Some(n) => if n > 0 then n else default
      case None => default
  }

  datatype ConstructorError = MissingProvider | MissingAuditRepository

  /**
   * `NewEmailService`: a provider and an audit repository are required; the
   * four settings default to 3 attempts, 30 minutes, 24 hours and 30 seconds.
   */
  function NewEmailService(hasProvider: bool, hasAuditRepo: bool,
                           maxAttemptsEnv: Option<string>, intervalEnv: Option<string>,
                           maxAgeEnv: Option<string>, timeoutEnv: Option<string>): (r: Result<EmailConfig, ConstructorError>)
    ensures !hasProvider ==> r == Err(MissingProvider)
    ensures hasProvider && !hasAuditRepo ==> r == Err(MissingAuditRepository)
    ensures r.Ok? ==> r.value.maxAttempts >= 1 && r.value.retryIntervalMinutes >= 1
                      && r.value.maxAgeHours >= 1 && r.value.timeoutSeconds >= 1
  {
    if !hasProvider then Err(MissingProvider)
    else if !hasAuditRepo then Err(MissingAuditRepository)
    else Ok(EmailConfig(
      PositiveSetting(maxAttemptsEnv, 3),
      PositiveSetting(intervalEnv, 30),
      PositiveSetting(maxAgeEnv, 24),
      PositiveSetting(timeoutEnv, 30)))
  }

  /** Unset variables give the documented defaults; a positive decimal setting is used. */
  lemma NewEmailServiceSettings(attempts: int)
    requires 0 < attempts <= INT64_MAX
    ensures NewEmailService(true, true, None, None, None, None) == Ok(EmailConfig(3, 30, 24, 30))
    ensures NewEmailService(true, true, Some(IntToString(attempts)), None, None, Some("abc")) ==
            Ok(EmailConfig(attempts, 30, 24, 30))
  {
    AtoiRoundTrip(attempts);
    assert ParseNat("abc") == None;
  }

  /**
   * The query of the retry pass as the repository writes it: temporary
   * failures not touched for the retry interval, younger than the maximum
   * age, and with fewer than `maxAttempts` retries.
   */
  predicate EligibleAsWritten(m: MailLog, cfg: EmailConfig, now: Time) {
    m.status == MailLogStatusTemporaryError
    && m.updatedAt < now - cfg.retryIntervalMinutes * 60
    && m.createdAt > now - cfg.maxAgeHours * 3600
    && m.retryCount < cfg.maxAttempts
  }

  /** The same query without the retry-count condition, so exhausted mails reach the loop. */
  predicate Eligible(m: MailLog, cfg: EmailConfig, now: Time) {
    m.status == MailLogStatusTemporaryError
    && m.updatedAt < now - cfg.retryIntervalMinutes * 60
    && m.createdAt > now - cfg.maxAgeHours * 3600
  }

  /** Description recorded when a mail runs out of attempts. */
  function ExhaustedDescription(maxAttempts: nat, last: string): string {
    "Max retry attempts (" + NatToString(maxAttempts) + ") exceeded. Last error: " + last
  }

  /** One iteration of the retry loop on one mail; `sendError` is the provider's answer. */
  function RetryOne(m: MailLog, cfg: EmailConfig, sendError: Option<string>, now: Time): (r: MailLog)
    ensures r.id == m.id && r.to == m.to && r.subject == m.subject && r.body == m.body
    ensures r.createdAt == m.createdAt && r.updatedAt == now
    ensures m.retryCount >= cfg.maxAttempts ==>
              r.status == MailLogStatusPermanentError && r.retryCount == m.retryCount
    ensures m.retryCount < cfg.maxAttempts ==>
              r.retryCount == m.retryCount + 1 && r.status == StatusFor(sendError)
  {
    if m.retryCount >= cfg.maxAttempts then
      m.(status := MailLogStatusPermanentError,
         errorDescription := ExhaustedDescription(cfg.maxAttempts, m.errorDescription),
         updatedAt := now)
    else
      match sendError
      case Some(msg) => m.(retryCount := m.retryCount + 1, updatedAt := now, status := StatusFor(sendError), errorDescription := msg)
      case None => m.(retryCount := m.retryCount + 1, updatedAt := now, status := MailLogStatusDelivered, errorDescription := "")
  }

  /** The mail log after one retry pass with the corrected query. */
  function RetryPass(logs: seq<MailLog>, cfg: EmailConfig, outcomes: seq<Option<string>>, now: Time): (r: seq<MailLog>)
    requires |outcomes| == |logs|
    ensures |r| == |logs|
    ensures forall i :: 0 <= i < |logs| ==> r[i].id == logs[i].id
    ensures forall i :: 0 <= i < |logs| && !Eligible(logs[i], cfg, now) ==> r[i] == logs[i]
    ensures forall i :: 0 <= i < |logs| && Eligible(logs[i], cfg, now) && logs[i].retryCount >= cfg.maxAttempts ==>
              r[i].status == MailLogStatusPermanentError
  {
    seq(|logs|, i requires 0 <= i < |logs| =>
      if Eligible(logs[i], cfg, now) then RetryOne(logs[i], cfg, outcomes[i], now) else logs[i])
  }

  /** The mail log after one retry pass with the query as written. */
  function RetryPassAsWritten(logs: seq<MailLog>, cfg: EmailConfig, outcomes: seq<Option<string>>, now: Time): (r: seq<MailLog>)
    requires |outcomes| == |logs|
    ensures |r| == |logs|
    ensures forall i :: 0 <= i < |logs| ==> r[i].id == logs[i].id
    ensures forall i :: 0 <= i < |logs| && !EligibleAsWritten(logs[i], cfg, now) ==> r[i] == logs[i]
    ensures forall i :: 0 <= i < |logs| && EligibleAsWritten(logs[i], cfg, now) ==>
              r[i].retryCount == logs[i].retryCount + 1 && r[i].status == StatusFor(outcomes[i])
  {
    seq(|logs|, i requires 0 <= i < |logs| =>
      if EligibleAsWritten(logs[i], cfg, now) then RetryOne(logs[i], cfg, outcomes[i], now) else logs[i])
  }

  /**
   * As written, a mail whose temporary failures used up its attempts is never
   * selected again and keeps `temporary_error` for ever: here three attempts
   * are allowed, three were made, and the pass leaves the record unchanged.
   */
  lemma ExhaustedMailStaysTemporaryAsWritten()
    ensures var m := MailLog(1, "a@b", "s", "b", 0, 0, MailLogStatusTemporaryError, "timeout", 3);
            var cfg := EmailConfig(3, 30, 24, 30);
            RetryPassAsWritten([m], cfg, [None], 3600) == [m]
  {
  }

  /** As written, the exhausted-attempts branch of the loop is unreachable. */
  lemma AsWrittenNeverExhausts(m: MailLog, cfg: EmailConfig, now: Time)
    requires EligibleAsWritten(m, cfg, now)
    ensures RetryOne(m, cfg, None, now).status != MailLogStatusPermanentError
  {
  }

  /**
   * With the corrected query an exhausted temporary mail inside the retry
   * window is marked permanent, and no retry raises a count past the maximum.
   */
  lemma RetryPassMarksExhausted(logs: seq<MailLog>, cfg: EmailConfig, outcomes: seq<Option<string>>, now: Time, i: nat)
    requires |outcomes| == |logs| && i < |logs|
    requires Eligible(logs[i], cfg, now) && logs[i].retryCount >= cfg.maxAttempts
    ensures RetryPass(logs, cfg, outcomes, now)[i].status == MailLogStatusPermanentError
  {
  }

  lemma RetryPassBoundsAttempts(logs: seq<MailLog>, cfg: EmailConfig, outcomes: seq<Option<string>>, now: Time)
    requires |outcomes| == |logs|
    requires forall i :: 0 <= i < |logs| ==> logs[i].retryCount <= cfg.maxAttempts
    ensures var after := RetryPass(logs, cfg, outcomes, now);
            forall i :: 0 <= i < |after| ==> after[i].retryCount <= cfg.maxAttempts
  {
  }

  /** Tallies of one retry pass (the source logs them). */
  datatype RetryCounts = RetryCounts(success: nat, temporaryFail: nat, permanentFail: nat) {
    function Total(): nat { success + temporaryFail + permanentFail }
  }

  /** The tally a retried mail adds: exhausted, delivered, or failed temporarily or permanently. */
  function Tally(m: MailLog, cfg: EmailConfig, sendError: Option<string>): (c: RetryCounts)
    ensures c.Total() == 1
    ensures c.success == 1 <==> m.retryCount < cfg.maxAttempts && sendError.None?
    ensures c.temporaryFail == 1 <==> RetryOne(m, cfg, sendError, 0).status == MailLogStatusTemporaryError
  {
    if m.retryCount >= cfg.maxAttempts then RetryCounts(0, 0, 1)
    else if sendError.None? then RetryCounts(1, 0, 0)
    else if IsTemporaryError(sendError.value) then RetryCounts(0, 1, 0)
    else RetryCounts(0, 0, 1)
  }

  /** Number of rows the corrected query selects. */
  function CountEligible(logs: seq<MailLog>, cfg: EmailConfig, now: Time): nat {
    if logs == [] then 0
    else CountEligible(logs[..|logs| - 1], cfg, now) + (if Eligible(logs[|logs| - 1], cfg, now) then 1 else 0)
  }

  /** The service with its settings and the mail-log table it writes to. */
  class Mailer {
    const config: EmailConfig
    var logs: seq<MailLog>
    var nextId: nat

    constructor (config: EmailConfig)
      ensures this.config == config && logs == [] && nextId == 1
    {
      this.config := config;
      logs := [];
      nextId := 1;
    }

    /**
     * `SendTo`: the log row records the sanitised message and the status for
     * the provider's answer; only a failure to save the row is returned.
     */
    method SendTo(target: string, subject: string, content: string, sendError: Option<string>,
                  saveSucceeds: bool, now: Time)
      returns (err: Option<string>)
      modifies this
      ensures saveSucceeds <==> err.None?
      ensures saveSucceeds ==>
        logs == old(logs) + [MailLog(old(nextId), EscapeHeaderValue(target), EscapeHeaderValue(subject),
                                     SanitizeEmailContent(content), now, now, StatusFor(sendError),
                                     if sendError.Some? then sendError.value else "", 0)]
        && nextId == old(nextId) + 1
      ensures !saveSucceeds ==> logs == old(logs) && nextId == old(nextId)
    {
      var mailLog := MailLog(0, EscapeHeaderValue(target), EscapeHeaderValue(subject),
                             SanitizeEmailContent(content), now, now, MailLogStatusTemporaryError, "", 0);
      match sendError {
        case Some(msg) =>
          mailLog := mailLog.(status := StatusFor(sendError), errorDescription := msg);
        case None =>
          mailLog := mailLog.(status := MailLogStatusDelivered);
      }
      if !saveSucceeds {
        return Some("failed to save mail log");
      }
      logs := logs + [mailLog.(id := nextId)];
      nextId := nextId + 1;
      err := None;
    }

    /**
     * `RetryFailedEmails`, with the corrected query: every selected mail is
     * retried once or, out of attempts, marked permanent. `outcomes[i]` is the
     * provider's answer for row i should it be resent.
     */
    method RetryFailedEmails(outcomes: seq<Option<string>>, now: Time) returns (counts: RetryCounts)
      requires |outcomes| == |logs|
      modifies this
      ensures logs == RetryPass(old(logs), config, outcomes, now)
      ensures nextId == old(nextId)
      ensures counts.Total() == CountEligible(old(logs), config, now)
    {
      ghost var start := logs;
      counts := RetryCounts(0, 0, 0);
      var i := 0;
      while i < |logs|
        invariant 0 <= i <= |logs| == |start|
        invariant forall k :: 0 <= k < i ==>
          logs[k] == (if Eligible(start[k], config, now) then RetryOne(start[k], config, outcomes[k], now) else start[k])
        invariant forall k :: i <= k < |logs| ==> logs[k] == start[k]
        invariant counts.Total() == CountEligible(start[..i], config, now)
        invariant nextId == old(nextId)
      {
        var m := logs[i];
        assert start[..i + 1][..i] == start[..i];
        if Eligible(m, config, now) {
          var t := Tally(m, config, outcomes[i]);
          counts := RetryCounts(counts.success + t.success, counts.temporaryFail + t.temporaryFail,
                                counts.permanentFail + t.permanentFail);
          logs := logs[i := RetryOne(m, config, outcomes[i], now)];
        }
        i := i + 1;
      }
      assert start[..|start|] == start;
      assert logs == RetryPass(start, config, outcomes, now);
    }
  }
}
