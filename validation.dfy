/** The request shape and `validateClientCreateRequest`, the ordered chain of seven
    guards shared by create and edit. */
module Validation {
  import opened Wrappers
  import opened Exceptions

  /** The request body of create and edit: five nullable strings. */
  datatype ClientCreateRequest = ClientCreateRequest(
    firstName: Option<string>,
    lastName: Option<string>,
    idNumber: Option<string>,
    mobileNumber: Option<string>,
    physicalAddress: Option<string>)

  const FirstNameMessage := "Firstname cannot be null or empty"
  const LastNameMessage := "Lastname cannot be null or empty"
  const IdNumberMissingMessage := "ID Number cannot be null or empty"
  const IdNumberDigitsMessage := "ID Number cannot contain alpha numerics"
  const IdNumberLengthMessage := "ID Number length should be 13"
  const MobileMissingMessage := "Mobile Number cannot be null or empty"
  const MobileDigitsMessage := "Mobile Number cannot contain alpha numerics"

  /** The messages of the seven guards, in the order they run. */
  const RuleMessages: seq<string> := [
    FirstNameMessage, LastNameMessage,
    IdNumberMissingMessage, IdNumberDigitsMessage, IdNumberLengthMessage,
    MobileMissingMessage, MobileDigitsMessage]

  const IdNumberLength := 13

  /** Java's `Character.isWhitespace` on a code point: the ASCII controls TAB..CR and
      FS..US, and every Unicode space, line or paragraph separator except the
      non-breaking ones (U+00A0, U+2007, U+202F). */
  predicate IsWhitespace(c: char)
  {
    var n := c as int;
    || (0x09 <= n <= 0x0D) || (0x1C <= n <= 0x20)
    || n == 0x1680
    || (0x2000 <= n <= 0x2006) || (0x2008 <= n <= 0x200A)
    || n == 0x2028 || n == 0x2029 || n == 0x205F || n == 0x3000
  }

  /** `String.isBlank`: empty or whitespace only. */
  predicate IsBlank(s: string)
  {
    forall i :: 0 <= i < |s| ==> IsWhitespace(s[i])
  }

  predicate IsNullOrBlank(s: Option<string>)
  {
    s.None? || IsBlank(s.value)
  }

  /** `\d` without the UNICODE_CHARACTER_CLASS flag: an ASCII digit. */
  predicate IsDigit(c: char)
  {
    '0' <= c <= '9'
  }

  /** The regular expression `\d*` matched against the whole of `s`. */
  predicate MatchesDigitStar(s: string)
  {
    s == [] || (IsDigit(s[0]) && MatchesDigitStar(s[1..]))
  }

  /** `s.matches("\\d+")`: the whole of `s` matches `\d\d*`. */
  predicate MatchesDigits(s: string)
  {
    |s| > 0 && IsDigit(s[0]) && MatchesDigitStar(s[1..])
  }

  /** One or more characters, all ASCII digits. */
  predicate AllDigits(s: string)
  {
    |s| > 0 && forall i :: 0 <= i < |s| ==> IsDigit(s[i])
  }

  lemma {:induction false} DigitStarIsAllDigits(s: string)
    ensures MatchesDigitStar(s) <==> forall i :: 0 <= i < |s| ==> IsDigit(s[i])
  {
    if s != [] {
      DigitStarIsAllDigits(s[1..]);
      assert forall i :: 1 <= i < |s| ==> s[i] == s[1..][i - 1];
    }
  }

  /** The regex `\d+` accepts exactly the non-empty all-digit strings. */
  lemma DigitsRegex(s: string)
    ensures MatchesDigits(s) <==> AllDigits(s)
  {
    if s != [] {
      DigitStarIsAllDigits(s[1..]);
      assert forall i :: 1 <= i < |s| ==> s[i] == s[1..][i - 1];
    }
  }

  /** A digit string is never blank. */
  lemma DigitsAreNotBlank(s: string)
    ensures AllDigits(s) ==> !IsBlank(s)
  {
    if AllDigits(s) {
      assert !IsWhitespace(s[0]);
    }
  }

  /** Guard `k` of the chain, each stated on its own. */
  predicate Holds(req: ClientCreateRequest, k: nat)
  {
    if k == 0 then !IsNullOrBlank(req.firstName)
    else if k == 1 then !IsNullOrBlank(req.lastName)
    else if k == 2 then !IsNullOrBlank(req.idNumber)
    else if k == 3 then req.idNumber.Some? && AllDigits(req.idNumber.value)
    else if k == 4 then req.idNumber.Some? && |req.idNumber.value| == IdNumberLength
    else if k == 5 then !IsNullOrBlank(req.mobileNumber)
    else if k == 6 then req.mobileNumber.Some? && AllDigits(req.mobileNumber.value)
    else true
  }

  /** Guard `k` is the first that fails. */
  predicate FirstViolated(req: ClientCreateRequest, k: nat)
  {
    !Holds(req, k) && forall j :: 0 <= j < k ==> Holds(req, j)
  }

  /** What a valid request is: both names present and not blank, an idNumber of
      exactly 13 ASCII digits and a mobileNumber of one or more ASCII digits.
      The physical address is not constrained. */
  predicate ValidRequest(req: ClientCreateRequest)
  {
    && !IsNullOrBlank(req.firstName)
    && !IsNullOrBlank(req.lastName)
    && req.idNumber.Some? && AllDigits(req.idNumber.value) && |req.idNumber.value| == IdNumberLength
    && req.mobileNumber.Some? && AllDigits(req.mobileNumber.value)
  }

  /** `validateClientCreateRequest`: passes exactly on valid requests; otherwise
      raises one InvalidFieldException carrying a guard's message (which guard:
      `ReportsFirstViolatedGuard`). */
  function Validate(req: ClientCreateRequest): (r: Outcome<GenericException>)
    ensures r.Pass? <==> ValidRequest(req)
    ensures r.Fail? ==> exists k :: 0 <= k < |RuleMessages| && r.error == InvalidField(RuleMessages[k])
  {
    if IsNullOrBlank(req.firstName) then Fail(InvalidField(RuleMessages[0]))
    else if IsNullOrBlank(req.lastName) then Fail(InvalidField(RuleMessages[1]))
    else if IsNullOrBlank(req.idNumber) then
      if req.idNumber.Some? then DigitsAreNotBlank(req.idNumber.value); Fail(InvalidField(RuleMessages[2]))
      else Fail(InvalidField(RuleMessages[2]))
    else
      DigitsRegex(req.idNumber.value);
      if !MatchesDigits(req.idNumber.value) then Fail(InvalidField(RuleMessages[3]))
      else if |req.idNumber.value| != IdNumberLength then Fail(InvalidField(RuleMessages[4]))
      else if IsNullOrBlank(req.mobileNumber) then
        if req.mobileNumber.Some? then DigitsAreNotBlank(req.mobileNumber.value); Fail(InvalidField(RuleMessages[5]))
        else Fail(InvalidField(RuleMessages[5]))
      else
        DigitsRegex(req.mobileNumber.value);
        if !MatchesDigits(req.mobileNumber.value) then Fail(InvalidField(RuleMessages[6]))
        else Pass
  }

  /** The guards cover the whole of validity: a request is valid exactly when all
      seven hold. */
  lemma ValidIffAllGuardsHold(req: ClientCreateRequest)
    ensures ValidRequest(req) <==> forall k :: 0 <= k < |RuleMessages| ==> Holds(req, k)
  {
    if forall k :: 0 <= k < |RuleMessages| ==> Holds(req, k) {
      assert Holds(req, 0) && Holds(req, 1) && Holds(req, 3) && Holds(req, 4) && Holds(req, 6);
    }
    if ValidRequest(req) {
      DigitsAreNotBlank(req.idNumber.value);
      DigitsAreNotBlank(req.mobileNumber.value);
    }
  }

  /** Only the first failing guard is reported: when guard `k` fails and all before
      it hold, the error carries guard `k`'s message; and every failure is of that
      kind. */
  lemma ReportsFirstViolatedGuard(req: ClientCreateRequest)
    ensures forall k :: 0 <= k < |RuleMessages| && FirstViolated(req, k) ==>
              Validate(req) == Fail(InvalidField(RuleMessages[k]))
    ensures Validate(req).Fail? ==>
              exists k :: 0 <= k < |RuleMessages| && FirstViolated(req, k)
  {
    var r := Validate(req);
    if !Holds(req, 0) {
      assert FirstViolated(req, 0);
    } else if !Holds(req, 1) {
      assert FirstViolated(req, 1);
    } else if !Holds(req, 2) {
      assert FirstViolated(req, 2);
    } else if !Holds(req, 3) {
      DigitsRegex(req.idNumber.value);
      assert FirstViolated(req, 3);
    } else if !Holds(req, 4) {
      DigitsRegex(req.idNumber.value);
      assert FirstViolated(req, 4);
    } else if !Holds(req, 5) {
      DigitsRegex(req.idNumber.value);
      assert FirstViolated(req, 5);
    } else if !Holds(req, 6) {
      DigitsRegex(req.idNumber.value);
      DigitsRegex(req.mobileNumber.value);
      assert FirstViolated(req, 6);
    } else {
      ValidIffAllGuardsHold(req);
    }
  }

  /** The physical address plays no part in validation. */
  lemma AddressIsNotChecked(req: ClientCreateRequest, address: Option<string>)
    ensures Validate(req.(physicalAddress := address)) == Validate(req)
  {
  }

  /** The mobile number has no length bound: any non-empty digit string passes. */
  lemma MobileHasNoLengthBound(req: ClientCreateRequest, mobile: string)
    requires ValidRequest(req) && AllDigits(mobile)
    ensures Validate(req.(mobileNumber := Some(mobile))).Pass?
  {
  }

  /** A 13-character idNumber holding a letter is reported as alphanumeric, not as
      a length error. */
  lemma AlphaReportedBeforeLength(req: ClientCreateRequest)
    requires !IsNullOrBlank(req.firstName) && !IsNullOrBlank(req.lastName)
    ensures Validate(req.(idNumber := Some("111111111111A"))) == Fail(InvalidField(IdNumberDigitsMessage))
  {
    var id := "111111111111A";
    assert !IsWhitespace(id[0]);
    assert !IsDigit(id[12]);
  }

  /** A 12-digit idNumber is reported as a length error. */
  lemma ShortIdNumberReportedAsLength(req: ClientCreateRequest)
    requires !IsNullOrBlank(req.firstName) && !IsNullOrBlank(req.lastName)
    ensures Validate(req.(idNumber := Some("111111111111"))) == Fail(InvalidField(IdNumberLengthMessage))
  {
  }

  /** The request of the service's happy-path scenario passes. */
  lemma DefaultRequestIsValid()
    ensures Validate(ClientCreateRequest(Some("John"), Some("Snow"), Some("1111111111111"),
                                         Some("000000"), Some("Home"))).Pass?
  {
    assert !IsWhitespace("John"[0]) && !IsWhitespace("Snow"[0]);
    assert AllDigits("1111111111111") && AllDigits("000000");
  }
}
