// The contact form of the portfolio page: the validator that runs before a
// submission is sent, and the two pieces of React state (`errors`, `success`)
// that the submit handler and the mail relay's callbacks update.

module ContactForm {
  import opened Browser

  /** The four form fields as read at submit time. */
  datatype FormFields = FormFields(name: string, email: string, subject: string, message: string)

  const NameError := "Name must not contain numbers or special characters."
  const EmailError := "Please enter a valid email address."
  const MessageError := "Message cannot be empty."
  const RelayError := "Something went wrong. Please try again later."

  // ---------------------------------------------------------------------------
  // Character classes

  /** JavaScript's `\s`, which is also the set `String.prototype.trim` strips:
      the WhiteSpace and LineTerminator code points of ECMAScript. */
  predicate IsSpace(c: char)
  {
    var n := c as int;
    (9 <= n <= 13) || n == 0x20 || n == 0xA0 || n == 0x1680 || (0x2000 <= n <= 0x200A)
    || n == 0x2028 || n == 0x2029 || n == 0x202F || n == 0x205F || n == 0x3000 || n == 0xFEFF
  }

  predicate IsAsciiLetter(c: char)
  {
    ('A' <= c <= 'Z') || ('a' <= c <= 'z')
  }

  /** Every character of `s` is whitespace (vacuously true of the empty string). */
  predicate IsBlank(s: string)
  {
    forall k :: 0 <= k < |s| ==> IsSpace(s[k])
  }

  // ---------------------------------------------------------------------------
  // The name check: /^[A-Za-z\s]+$/

  predicate NameMatches(name: string)
  {
    |name| > 0 && forall k :: 0 <= k < |name| ==> IsAsciiLetter(name[k]) || IsSpace(name[k])
  }

  // ---------------------------------------------------------------------------
  // The email check: /^[^\s@]+@[^\s@]+\.[^\s@]+$/

  /** Every character of `s` may stand in the class `[^\s@]`. */
  predicate NoSpaceOrAt(s: string)
  {
    forall k :: 0 <= k < |s| ==> s[k] != '@' && !IsSpace(s[k])
  }

  /** The regular expression read literally: the address splits at an '@'
      (index a) and a later '.' (index d) into three non-empty runs of
      characters that are neither whitespace nor '@'. */
  predicate EmailMatches(e: string)
  {
    exists a, d | 0 < a && a + 1 < d && d + 1 < |e| ::
      e[a] == '@' && e[d] == '.' &&
      NoSpaceOrAt(e[..a]) && NoSpaceOrAt(e[a + 1..d]) && NoSpaceOrAt(e[d + 1..])
  }

  /** Number of occurrences of `c` in `s`. */
  function CountOf(s: string, c: char): (n: nat)
    ensures n <= |s|
    ensures n == 0 <==> forall k :: 0 <= k < |s| ==> s[k] != c
  {
    if s == [] then 0 else (if s[0] == c then 1 else 0) + CountOf(s[1..], c)
  }

  /** Index of the first `c` in `s`, or `|s|` when there is none. */
  function IndexOf(s: string, c: char): (i: nat)
    ensures i <= |s|
    ensures i < |s| ==> s[i] == c
    ensures forall k :: 0 <= k < i ==> s[k] != c
  {
    if s == [] then 0 else if s[0] == c then 0 else 1 + IndexOf(s[1..], c)
  }

  /** The domain has a '.' that is neither its first nor its last character. */
  predicate HasInnerDot(domain: string)
  {
    exists j :: 0 < j < |domain| - 1 && domain[j] == '.'
  }

  /** The shape of an address the email check accepts, stated field by field:
      exactly one '@', no whitespace, a non-empty local part, and a domain
      with an inner '.'. */
  predicate EmailWellShaped(e: string)
  {
    CountOf(e, '@') == 1 &&
    (forall k :: 0 <= k < |e| ==> !IsSpace(e[k])) &&
    var a := IndexOf(e, '@');
    0 < a < |e| && HasInnerDot(e[a + 1..])
  }

  lemma {:induction false} CountSplit(s: string, i: nat, c: char)
    requires i <= |s|
    ensures CountOf(s, c) == CountOf(s[..i], c) + CountOf(s[i..], c)
  {
    if i == 0 {
      assert s[..0] == [] && s[0..] == s;
    } else {
      CountSplit(s[1..], i - 1, c);
      assert s[1..][..i - 1] == s[..i][1..];
      assert s[1..][i - 1..] == s[i..];
    }
  }

  /** With the first '@' at index a, the address holds exactly one '@'
      iff nothing after a is an '@'. */
  lemma CountOneAfterFirst(e: string, a: nat)
    requires a < |e| && e[a] == '@'
    requires forall k :: 0 <= k < a ==> e[k] != '@'
    ensures CountOf(e, '@') == 1 <==> NoAt(e[a + 1..])
  {
    CountSplit(e, a, '@');
    assert CountOf(e[..a], '@') == 0;
    assert e[a..][1..] == e[a + 1..];
  }

  predicate NoAt(s: string)
  {
    forall k :: 0 <= k < |s| ==> s[k] != '@'
  }

  lemma NoSpaceOrAtSlice(e: string, lo: nat, hi: nat)
    requires lo <= hi <= |e|
    ensures NoSpaceOrAt(e[lo..hi]) <==> forall k :: lo <= k < hi ==> e[k] != '@' && !IsSpace(e[k])
  {
    assert forall k :: lo <= k < hi ==> e[lo..hi][k - lo] == e[k];
  }

  /** A split the regular expression accepts yields a well-shaped address. */
  lemma SplitIsWellShaped(e: string, a: nat, d: nat)
    requires 0 < a && a + 1 < d && d + 1 < |e| && e[a] == '@' && e[d] == '.'
    requires NoSpaceOrAt(e[..a]) && NoSpaceOrAt(e[a + 1..d]) && NoSpaceOrAt(e[d + 1..])
    ensures EmailWellShaped(e)
  {
    NoSpaceOrAtSlice(e, 0, a);
    NoSpaceOrAtSlice(e, a + 1, d);
    NoSpaceOrAtSlice(e, d + 1, |e|);
    assert IndexOf(e, '@') == a;
    var domain := e[a + 1..];
    assert forall k :: a + 1 <= k < |e| ==> domain[k - a - 1] == e[k];
    assert NoAt(domain);
    CountOneAfterFirst(e, a);
    assert domain[d - a - 1] == '.';
  }

  lemma NoAtTail(e: string, lo: nat)
    requires lo <= |e| && NoAt(e[lo..])
    ensures forall k :: lo <= k < |e| ==> e[k] != '@'
  {
    assert forall k :: lo <= k < |e| ==> e[lo..][k - lo] == e[k];
  }

  /** A well-shaped address splits the way the regular expression requires. */
  lemma WellShapedSplits(e: string)
    requires EmailWellShaped(e)
    ensures EmailMatches(e)
  {
    var a := IndexOf(e, '@');
    var j :| 0 < j < |e[a + 1..]| - 1 && e[a + 1..][j] == '.';
    var d := a + 1 + j;
    assert e[d] == e[a + 1..][j];
    CountOneAfterFirst(e, a);
    NoAtTail(e, a + 1);
    NoSpaceOrAtSlice(e, 0, a);
    NoSpaceOrAtSlice(e, a + 1, d);
    NoSpaceOrAtSlice(e, d + 1, |e|);
    assert 0 < a && a + 1 < d && d + 1 < |e| && e[a] == '@' && e[d] == '.';
  }

  /** The regular expression accepts exactly the well-shaped addresses. */
  lemma EmailMatchesIff(e: string)
    ensures EmailMatches(e) <==> EmailWellShaped(e)
  {
    if EmailMatches(e) {
      var a, d :| 0 < a && a + 1 < d && d + 1 < |e| &&
        e[a] == '@' && e[d] == '.' &&
        NoSpaceOrAt(e[..a]) && NoSpaceOrAt(e[a + 1..d]) && NoSpaceOrAt(e[d + 1..]);
      SplitIsWellShaped(e, a, d);
    }
    if EmailWellShaped(e) {
      WellShapedSplits(e);
    }
  }

  // ---------------------------------------------------------------------------
  // The message check: !message.trim()

  /** The characters of `s` in [lo, hi) are all whitespace. */
  predicate SpaceBetween(s: string, lo: nat, hi: nat)
    requires lo <= hi <= |s|
  {
    forall k :: lo <= k < hi ==> IsSpace(s[k])
  }

  /** The first index at or after i that is not whitespace (|s| if none). */
  function SkipSpace(s: string, i: nat): (j: nat)
    requires i <= |s|
    ensures i <= j <= |s| && SpaceBetween(s, i, j)
    ensures j < |s| ==> !IsSpace(s[j])
    decreases |s| - i
  {
    if i < |s| && IsSpace(s[i]) then SkipSpace(s, i + 1) else i
  }

  /** Going down from j, the end of the last non-whitespace character at or
      after lo (lo if none). */
  function SkipSpaceBack(s: string, lo: nat, j: nat): (m: nat)
    requires lo <= j <= |s|
    ensures lo <= m <= j && SpaceBetween(s, m, j)
    ensures m > lo ==> !IsSpace(s[m - 1])
  {
    if lo < j && IsSpace(s[j - 1]) then SkipSpaceBack(s, lo, j - 1) else j
  }

  /** `r` is the slice of `s` starting at i, and everything of `s` outside
      that slice is whitespace. */
  predicate StrippedAt(s: string, i: nat, r: string)
  {
    i + |r| <= |s| && r == s[i..i + |r|] && SpaceBetween(s, 0, i) && SpaceBetween(s, i + |r|, |s|)
  }

  /** `String.prototype.trim`: the slice of `s` left after stripping
      whitespace from both ends. */
  function Trim(s: string): (r: string)
    ensures r == [] <==> IsBlank(s)
    ensures r != [] ==> !IsSpace(r[0]) && !IsSpace(r[|r| - 1])
    ensures exists i :: StrippedAt(s, i, r)
  {
    var i := SkipSpace(s, 0);
    var j := SkipSpaceBack(s, i, |s|);
    assert StrippedAt(s, i, s[i..j]);
    s[i..j]
  }

  // ---------------------------------------------------------------------------
  // validateForm

  /** `validateForm`: the reason of the first check that fails, in the order
      name, email, message, or None when all pass. The subject is not read. */
  function ValidateForm(f: FormFields): (r: Option<string>)
    ensures r == Some(NameError) <==> !NameMatches(f.name)
    ensures NameMatches(f.name) ==> (r == Some(EmailError) <==> !EmailWellShaped(f.email))
    ensures NameMatches(f.name) && EmailWellShaped(f.email) ==>
      (r == Some(MessageError) <==> IsBlank(f.message))
    ensures r == None <==> NameMatches(f.name) && EmailWellShaped(f.email) && !IsBlank(f.message)
  {
    EmailMatchesIff(f.email);
    if !NameMatches(f.name) then Some(NameError)
    else if !EmailMatches(f.email) then Some(EmailError)
    else if Trim(f.message) == [] then Some(MessageError)
    else None
  }

  /** With no form element every optional-chained field read is `undefined`,
      which the regular expressions test as the string "undefined": the name
      check accepts it and the email check rejects it, so `trim` is never reached. */
  lemma MissingFormRejected()
    ensures ValidateForm(FormFields("undefined", "undefined", "undefined", "undefined")) == Some(EmailError)
  {
  }

  /** The subject field never influences validation. */
  lemma SubjectIgnored(f: FormFields, subject: string)
    ensures ValidateForm(f.(subject := subject)) == ValidateForm(f)
  {
  }

  // ---------------------------------------------------------------------------
  // sendEmail: the `errors` / `success` state and the relay requests in flight

  /** The form's React state, and the relay requests issued and not yet settled. */
  datatype FormState = FormState(errors: Option<string>, success: bool, inFlight: seq<FormFields>)

  const InitialState := FormState(None, false, [])

  /** A submit: a failing check sets `errors` to its reason and sends nothing;
      a passing one clears `errors` and issues one relay request. */
  function OnSubmit(s: FormState, f: FormFields): FormState
  {
    match ValidateForm(f)
    case Some(reason) => s.(errors := Some(reason))
    case None => s.(errors := None, inFlight := s.inFlight + [f])
  }

  /** Request i settles: delivered sets `success`, rejected sets the generic error. */
  function OnSettle(s: FormState, i: nat, delivered: bool): FormState
    requires i < |s.inFlight|
  {
    var rest := s.inFlight[..i] + s.inFlight[i + 1..];
    if delivered then s.(success := true, inFlight := rest)
    else s.(errors := Some(RelayError), inFlight := rest)
  }

  /** One event: a submit, or the settling of any request in flight
      (requests settle in any order). */
  ghost predicate Step(s: FormState, t: FormState)
  {
    (exists f :: t == OnSubmit(s, f)) ||
    (exists i: nat, delivered: bool :: i < |s.inFlight| && t == OnSettle(s, i, delivered))
  }

  /** What every reachable state satisfies: `errors` is null or one of the four
      messages, and every request in flight passed validation. */
  ghost predicate Consistent(s: FormState)
  {
    (s.errors == None || s.errors == Some(NameError) || s.errors == Some(EmailError) ||
     s.errors == Some(MessageError) || s.errors == Some(RelayError)) &&
    (forall r :: r in s.inFlight ==> ValidateForm(r) == None)
  }

  /** The first render is consistent, so the lemmas over runs apply from page load. */
  lemma InitialConsistent()
    ensures Consistent(InitialState) && !InitialState.success
  {
  }

  lemma StepKeepsConsistentAndSuccess(s: FormState, t: FormState)
    requires Consistent(s) && Step(s, t)
    ensures Consistent(t)
    ensures s.success ==> t.success
  {
    if exists f :: t == OnSubmit(s, f) {
      var f :| t == OnSubmit(s, f);
    } else {
      var i: nat, delivered: bool :| i < |s.inFlight| && t == OnSettle(s, i, delivered);
      assert forall r :: r in s.inFlight[..i] + s.inFlight[i + 1..] ==> r in s.inFlight;
    }
  }

  /** Along any run of events, the state stays consistent and `success`,
      once true, stays true: nothing ever sets it back to false. */
  lemma {:induction false} SuccessNeverResets(run: seq<FormState>)
    requires |run| > 0 && Consistent(run[0])
    requires forall k :: 0 <= k < |run| - 1 ==> Step(run[k], run[k + 1])
    ensures Consistent(run[|run| - 1])
    ensures run[0].success ==> run[|run| - 1].success
  {
    if |run| > 1 {
      SuccessNeverResets(run[..|run| - 1]);
      StepKeepsConsistentAndSuccess(run[|run| - 2], run[|run| - 1]);
    }
  }

  /** A later failure does not hide an earlier success: both the error and the
      success message are shown. */
  lemma StaleSuccessShownWithError(s: FormState, f: FormFields, i: nat)
    requires s.success
    ensures ValidateForm(f) != None ==> OnSubmit(s, f).errors != None && OnSubmit(s, f).success
    ensures i < |s.inFlight| ==> OnSettle(s, i, false).errors == Some(RelayError) && OnSettle(s, i, false).success
  {
  }

  /** The component's state, updated in place by its handlers. */
  class ContactFormController {
    var errors: Option<string>
    var success: bool
    var inFlight: seq<FormFields>

    function State(): FormState
      reads this
    {
      FormState(errors, success, inFlight)
    }

    constructor ()
      ensures State() == InitialState
    {
      errors, success, inFlight := None, false, [];
    }

    /** `sendEmail`: validate, then either report the reason or clear the
        error and issue one relay request. */
    method SendEmail(f: FormFields) returns (issued: bool)
      modifies this
      ensures issued <==> ValidateForm(f) == None
      ensures errors == ValidateForm(f)
      ensures success == old(success)
      ensures inFlight == if issued then old(inFlight) + [f] else old(inFlight)
      ensures State() == OnSubmit(old(State()), f)
    {
      var validationError := ValidateForm(f);
      if validationError.Some? {
        errors := validationError;
        return false;
      }
      errors := None;
      inFlight := inFlight + [f];
      issued := true;
    }

    /** The relay delivered request i: `.then(() => setSuccess(true))`. */
    method RelayResolved(i: nat)
      requires i < |inFlight|
      modifies this
      ensures success && errors == old(errors)
      ensures inFlight == old(inFlight[..i] + inFlight[i + 1..])
      ensures State() == OnSettle(old(State()), i, true)
    {
      success := true;
      inFlight := inFlight[..i] + inFlight[i + 1..];
    }

    /** The relay failed on request i: `.catch(() => setErrors(...))`. */
    method RelayRejected(i: nat)
      requires i < |inFlight|
      modifies this
      ensures errors == Some(RelayError) && success == old(success)
      ensures inFlight == old(inFlight[..i] + inFlight[i + 1..])
      ensures State() == OnSettle(old(State()), i, false)
    {
      errors := Some(RelayError);
      inFlight := inFlight[..i] + inFlight[i + 1..];
    }
  }
}
