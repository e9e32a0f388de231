/**
 * Request validation of the task routes:
 * backend/src/middlewares/validations/task.validation.middleware.ts (the
 * rule chains) and backend/src/middlewares/validationErrorHandler.middleware.ts
 * (the first error becomes a BadRequestError).
 */
module Validation {
  import opened Wrappers
  import opened Errors

  /** One entry of express-validator's result: the field and the chain's message. */
  datatype FieldError = FieldError(field: string, msg: string)

  // ---------------------------------------------------------------------------
  // validationErrorHandler
  // ---------------------------------------------------------------------------

  /** `result.array({ onlyFirstError: true })`: the first error of each field, in order. */
  function OnlyFirstError(errors: seq<FieldError>): (r: seq<FieldError>)
    ensures |r| <= |errors|
    ensures forall e :: e in r ==> e in errors
    ensures forall i, j :: 0 <= i < j < |r| ==> r[i].field != r[j].field
    decreases |errors|
  {
    if errors == [] then []
    else
      var rest := OnlyFirstError(Without(errors[1..], errors[0].field));
      assert forall e :: e in rest ==> e.field != errors[0].field;
      [errors[0]] + rest
  }

  /** The errors that are not about `field`. */
  function Without(errors: seq<FieldError>, field: string): (r: seq<FieldError>)
    ensures |r| <= |errors|
    ensures forall e :: e in r <==> e in errors && e.field != field
  {
    if errors == [] then []
    else if errors[0].field == field then Without(errors[1..], field)
    else [errors[0]] + Without(errors[1..], field)
  }

  /** Some error in `errors` is about `field`. */
  predicate HasField(errors: seq<FieldError>, field: string)
  {
    exists e :: e in errors && e.field == field
  }

  /** Removing a field's errors works error by error. */
  lemma {:induction false} WithoutSnoc(a: seq<FieldError>, e: FieldError, field: string)
    ensures Without(a + [e], field) == Without(a, field) + (if e.field == field then [] else [e])
    decreases |a|
  {
    if a == [] {
      assert a + [e] == [e] && [e][1..] == [];
    } else {
      assert (a + [e])[0] == a[0] && (a + [e])[1..] == a[1..] + [e];
      WithoutSnoc(a[1..], e, field);
      var tail := if e.field == field then [] else [e];
      if a[0].field != field {
        assert [a[0]] + (Without(a[1..], field) + tail) == ([a[0]] + Without(a[1..], field)) + tail;
      }
    }
  }

  /**
   * Read left to right, the errors keep their order, and an error is kept
   * exactly when no earlier error is about its field.
   */
  lemma {:induction false} OnlyFirstErrorSnoc(errors: seq<FieldError>, e: FieldError)
    ensures OnlyFirstError(errors + [e]) == OnlyFirstError(errors) + (if HasField(errors, e.field) then [] else [e])
    decreases |errors|
  {
    if errors == [] {
      assert errors + [e] == [e] && [e][1..] == [];
    } else if e.field == errors[0].field {
      SnocSameField(errors, e);
    } else {
      var w := Without(errors[1..], errors[0].field);
      OnlyFirstErrorSnoc(w, e);
      SnocOtherField(errors, e);
    }
  }

  /** The head error's field decides it: an appended error about the same field is dropped. */
  lemma SnocSameField(errors: seq<FieldError>, e: FieldError)
    requires errors != [] && e.field == errors[0].field
    ensures OnlyFirstError(errors + [e]) == OnlyFirstError(errors) && HasField(errors, e.field)
  {
    var a, rest := errors[0], errors[1..];
    OnlyFirstErrorCons(errors + [e]);
    assert (errors + [e])[0] == a && (errors + [e])[1..] == rest + [e];
    WithoutSnoc(rest, e, a.field);
    assert Without(rest, a.field) + [] == Without(rest, a.field);
    OnlyFirstErrorCons(errors);
    assert errors[0] in errors;
  }

  /** An appended error about another field is treated as the rest of the errors treat it. */
  lemma SnocOtherField(errors: seq<FieldError>, e: FieldError)
    requires errors != [] && e.field != errors[0].field
    requires var w := Without(errors[1..], errors[0].field);
      OnlyFirstError(w + [e]) == OnlyFirstError(w) + (if HasField(w, e.field) then [] else [e])
    ensures OnlyFirstError(errors + [e]) == OnlyFirstError(errors) + (if HasField(errors, e.field) then [] else [e])
  {
    var a, w := errors[0], Without(errors[1..], errors[0].field);
    var tail := if HasField(w, e.field) then [] else [e];
    var rw, re := OnlyFirstError(w), OnlyFirstError(errors);
    var rwe := OnlyFirstError(w + [e]);
    assert rwe == rw + tail;
    assert OnlyFirstError(errors + [e]) == [a] + rwe by {
      AppendOtherField(errors, e);
    }
    assert re == [a] + rw by {
      OnlyFirstErrorCons(errors);
    }
    assert tail == if HasField(errors, e.field) then [] else [e] by {
      HasFieldWithout(errors, e.field);
    }
    ConcatAssoc([a], rw, tail);
  }

  lemma ConcatAssoc<T>(a: seq<T>, b: seq<T>, c: seq<T>)
    ensures a + (b + c) == (a + b) + c
  {
  }

  /** Appending an error about another field than the head's appends it to the filtered rest. */
  lemma AppendOtherField(errors: seq<FieldError>, e: FieldError)
    requires errors != [] && e.field != errors[0].field
    ensures OnlyFirstError(errors + [e]) == [errors[0]] + OnlyFirstError(Without(errors[1..], errors[0].field) + [e])
  {
    assert (errors + [e])[0] == errors[0] && (errors + [e])[1..] == errors[1..] + [e];
    OnlyFirstErrorCons(errors + [e]);
    WithoutSnoc(errors[1..], e, errors[0].field);
  }

  /** The head error is kept, and the rest are filtered of its field. */
  lemma OnlyFirstErrorCons(errors: seq<FieldError>)
    requires errors != []
    ensures OnlyFirstError(errors) == [errors[0]] + OnlyFirstError(Without(errors[1..], errors[0].field))
  {
  }

  /** Dropping the head's field keeps every other field present. */
  lemma HasFieldWithout(errors: seq<FieldError>, field: string)
    requires errors != [] && field != errors[0].field
    ensures HasField(Without(errors[1..], errors[0].field), field) <==> HasField(errors, field)
  {
    var w := Without(errors[1..], errors[0].field);
    if HasField(errors, field) {
      var x :| x in errors && x.field == field;
      assert x in errors[1..] by {
        assert errors == [errors[0]] + errors[1..];
      }
      assert x in w;
    }
    if HasField(w, field) {
      var x :| x in w && x.field == field;
      assert x in errors[1..];
    }
  }

  /** Every field that has an error keeps one. */
  lemma {:induction false} OnlyFirstErrorCoversFields(errors: seq<FieldError>, e: FieldError)
    requires e in errors
    ensures exists f :: f in OnlyFirstError(errors) && f.field == e.field
    decreases |errors|
  {
    if e.field != errors[0].field {
      assert e in Without(errors[1..], errors[0].field);
      OnlyFirstErrorCoversFields(Without(errors[1..], errors[0].field), e);
      var f :| f in OnlyFirstError(Without(errors[1..], errors[0].field)) && f.field == e.field;
      assert f in OnlyFirstError(errors);
    } else {
      assert OnlyFirstError(errors)[0] == errors[0];
    }
  }

  /** Keeping only each field's first error keeps the very first error in front. */
  lemma OnlyFirstErrorKeepsFirst(errors: seq<FieldError>)
    requires errors != []
    ensures OnlyFirstError(errors) != [] && OnlyFirstError(errors)[0] == errors[0]
  {
  }

  /**
   * `validationErrorHandler(req, res, next)`: `collected` is what
   * `validationResult(req)` yields, or the exception it raised; the result is
   * the list of calls made to `next`.
   */
  function ValidationErrorHandler(collected: Result<seq<FieldError>, Error>): (calls: seq<NextCall>)
    ensures |calls| == 1
    ensures collected.Failure? ==> calls == [NextWith(collected.error)]
    ensures collected.Success? && collected.value == [] ==> calls == [Next]
    ensures collected.Success? && collected.value != [] ==>
      calls == [NextWith(Http(BadRequestError, collected.value[0].msg))]
  {
    match collected
    case Failure(e) => [NextWith(e)]
    case Success(errors) =>
      var first := OnlyFirstError(errors);
      if first != [] then
        OnlyFirstErrorKeepsFirst(errors);
        [NextWith(Http(BadRequestError, first[0].msg))]
      else [Next]
  }

  // ---------------------------------------------------------------------------
  // Rule chains
  // ---------------------------------------------------------------------------

  /** A JSON value of the request body: strings, booleans and `null`. */
  datatype Value = Str(s: string) | Bool(b: bool) | Null

  /** express-validator's `toString` of a field; an absent field and `null` read as "". */
  function AsString(v: Option<Value>): string
  {
    match v
    case None => ""
    case Some(Str(s)) => s
    case Some(Bool(b)) => if b then "true" else "false"
    case Some(Null) => ""
  }

  /** JavaScript's `\s`: the ECMAScript white space and line terminator characters. */
  predicate IsWhitespace(c: char)
  {
    || c == '\t' || c == '\n' || c == '\U{000B}' || c == '\U{000C}' || c == '\r' || c == ' '
    || c == '\U{00A0}' || c == '\U{1680}' || '\U{2000}' <= c <= '\U{200A}'
    || c == '\U{2028}' || c == '\U{2029}' || c == '\U{202F}' || c == '\U{205F}'
    || c == '\U{3000}' || c == '\U{FEFF}'
  }

  /** Leading whitespace removed. */
  function TrimStart(s: string): (r: string)
    ensures |r| <= |s| && r == s[|s| - |r|..]
    ensures r != [] ==> !IsWhitespace(r[0])
    ensures forall i :: 0 <= i < |s| - |r| ==> IsWhitespace(s[i])
  {
    if s != [] && IsWhitespace(s[0]) then TrimStart(s[1..]) else s
  }

  /** Trailing whitespace removed. */
  function TrimEnd(s: string): (r: string)
    ensures |r| <= |s| && r == s[..|r|]
    ensures r != [] ==> !IsWhitespace(r[|r| - 1])
    ensures forall i :: |r| <= i < |s| ==> IsWhitespace(s[i])
  {
    if s != [] && IsWhitespace(s[|s| - 1]) then TrimEnd(s[..|s| - 1]) else s
  }

  /** The `trim()` sanitizer, which rewrites the field before the later rules read it. */
  function Trim(s: string): (r: string)
    ensures r == "" <==> forall i :: 0 <= i < |s| ==> IsWhitespace(s[i])
    ensures r != [] ==> !IsWhitespace(r[0]) && !IsWhitespace(r[|r| - 1])
  {
    TrimEnd(TrimStart(s))
  }

  /** Trimming twice changes nothing more. */
  lemma TrimIdempotent(s: string)
    ensures Trim(Trim(s)) == Trim(s)
  {
    var t := Trim(s);
    assert TrimStart(t) == t by {
      if t != [] {
        assert !IsWhitespace(t[0]);
      }
    }
    assert TrimEnd(t) == t by {
      if t != [] {
        assert !IsWhitespace(t[|t| - 1]);
      }
    }
  }

  /** The two presentation selectors, U+FE0E (text) and U+FE0F (emoji). */
  predicate IsVariationSelector(c: char)
  {
    c == '\U{FE0E}' || c == '\U{FE0F}'
  }

  /**
   * The length `isLength` measures: UTF-16 units less one per surrogate
   * pair and one per presentation selector, that is the code points other
   * than U+FE0E and U+FE0F.
   */
  function Length(s: string): (n: nat)
    ensures n <= |s|
    ensures (forall i :: 0 <= i < |s| ==> !IsVariationSelector(s[i])) ==> n == |s|
  {
    if s == [] then 0 else (if IsVariationSelector(s[0]) then 0 else 1) + Length(s[1..])
  }

  /** `trim().notEmpty().withMessage(required).isLength({ min }).withMessage(tooShort)`: every failing rule adds its message. */
  function TrimmedTextRules(field: string, v: Option<Value>, min: nat, required: string, tooShort: string): (r: seq<FieldError>)
    ensures (forall e :: e in r ==> e.field == field)
    ensures r == [] <==> Length(Trim(AsString(v))) >= min && Trim(AsString(v)) != ""
    ensures r != [] ==> r[0].msg == (if Trim(AsString(v)) == "" then required else tooShort)
  {
    var t := Trim(AsString(v));
    (if t == "" then [FieldError(field, required)] else [])
      + (if Length(t) < min then [FieldError(field, tooShort)] else [])
  }

  /** An emoji presentation selector is not counted: "ab" followed by U+FE0F is two characters long, too short for a category. */
  lemma SelectorIsNotCounted()
    ensures TrimmedTextRules("category", Some(Str("ab\U{FE0F}")), 3, "Category is required", "Category must be at least 3 characters long")
      == [FieldError("category", "Category must be at least 3 characters long")]
  {
    var s := "ab\U{FE0F}";
    EmojiCategoryIsTrimmed(s);
    EmojiCategoryLength(s);
    assert AsString(Some(Str(s))) == s;
  }

  /** Neither end of "ab" followed by U+FE0F is whitespace. */
  lemma EmojiCategoryIsTrimmed(s: string)
    requires s == "ab\U{FE0F}"
    ensures Trim(s) == s
  {
    assert s[0] == 'a' && s[2] == '\U{FE0F}';
    assert TrimStart(s) == s;
    assert TrimEnd(s) == s;
  }

  /** "ab" followed by U+FE0F measures two. */
  lemma EmojiCategoryLength(s: string)
    requires s == "ab\U{FE0F}"
    ensures Length(s) == 2
  {
    assert Length(s[2..]) == 0 by {
      assert s[2..][1..] == [];
    }
    assert s[1..][1..] == s[2..];
  }



  /** A category of one ideographic space trims to nothing, so it is reported as missing, not as too short. */
  lemma IdeographicSpaceIsMissing()
    ensures TrimmedTextRules("category", Some(Str("\U{3000}")), 3, "Category is required", "Category must be at least 3 characters long")[0].msg
      == "Category is required"
  {
    assert IsWhitespace("\U{3000}"[0]);
  }

  /** `isISO8601()` and `new Date(value)`, both left abstract: the date library is not part of this model. */
  datatype DateLib = DateLib(isIso8601: string -> bool, parse: string -> Option<int>)

  /** dueDate: ISO 8601, then strictly later than the clock (an unparsable date is never later). */
  function DueDateRules(v: Option<Value>, dates: DateLib, nowMs: int): (r: seq<FieldError>)
    ensures forall e :: e in r ==> e.field == "dueDate"
    ensures FieldError("dueDate", "Invalid date format") in r <==> !dates.isIso8601(AsString(v))
    ensures FieldError("dueDate", "Date must be in the future") in r <==>
      !(dates.parse(AsString(v)).Some? && dates.parse(AsString(v)).value > nowMs)
    ensures r != [] ==> r[0].msg == (if !dates.isIso8601(AsString(v)) then "Invalid date format" else "Date must be in the future")
  {
    var s := AsString(v);
    (if !dates.isIso8601(s) then [FieldError("dueDate", "Invalid date format")] else [])
      + (if !(dates.parse(s).Some? && dates.parse(s).value > nowMs) then [FieldError("dueDate", "Date must be in the future")] else [])
  }

  /** `optional().isIn(allowed)`: skipped when absent, else the value's string must be one of `allowed`. */
  function OptionalInRule(field: string, v: Option<Value>, allowed: seq<string>, msg: string): (r: seq<FieldError>)
    ensures r == [] <==> v.None? || AsString(v) in allowed
    ensures r != [] ==> r == [FieldError(field, msg)]
  {
    if v.Some? && AsString(v) !in allowed then [FieldError(field, msg)] else []
  }

  /** `optional()` skips only an absent field: a `null` status is checked, and fails. */
  lemma NullIsChecked(allowed: seq<string>, msg: string)
    requires "" !in allowed
    ensures OptionalInRule("status", Some(Null), allowed, msg) == [FieldError("status", msg)]
    ensures OptionalBooleanRule(Some(Null)) != []
  {
  }

  /** validator.js `isBoolean` (strict) on the field's string: one of "true", "false", "1", "0". */
  predicate IsBoolean(v: Value)
  {
    AsString(Some(v)) in ["true", "false", "1", "0"]
  }

  /** `optional().isBoolean()`. */
  function OptionalBooleanRule(v: Option<Value>): (r: seq<FieldError>)
    ensures r == [] <==> v.None? || IsBoolean(v.value)
    ensures r != [] ==> r == [FieldError("userReminded", "User Reminded must be true or false")]
  {
    if v.Some? && !IsBoolean(v.value) then [FieldError("userReminded", "User Reminded must be true or false")] else []
  }

  /** The body fields the task rules look at. */
  datatype TaskBody = TaskBody(
    category: Option<Value>,
    description: Option<Value>,
    dueDate: Option<Value>,
    status: Option<Value>,
    urgency: Option<Value>,
    userReminded: Option<Value>)

  const STATUSES: seq<string> := ["pending", "in-progress", "completed"]
  const URGENCIES: seq<string> := ["urgent", "normal"]

  /** The position of a body field's chain in `taskValidation`; 6 for any other name. */
  function FieldRank(field: string): nat
  {
    if field == "category" then 0
    else if field == "description" then 1
    else if field == "dueDate" then 2
    else if field == "status" then 3
    else if field == "urgency" then 4
    else if field == "userReminded" then 5
    else 6
  }

  /** Errors grouped by chain: no error of a later chain comes before one of an earlier chain. */
  predicate InFieldOrder(r: seq<FieldError>)
  {
    forall i, j :: 0 <= i < j < |r| ==> FieldRank(r[i].field) <= FieldRank(r[j].field)
  }

  /** `taskValidation`: the six chains, in order, each adding the messages of its failing rules. */
  function TaskValidation(body: TaskBody, dates: DateLib, nowMs: int): (r: seq<FieldError>)
    ensures forall e :: e in r ==> FieldRank(e.field) < 6
    ensures InFieldOrder(r)
  {
    var c := TrimmedTextRules("category", body.category, 3, "Category is required", "Category must be at least 3 characters long");
    var d := TrimmedTextRules("description", body.description, 10, "Description is required", "Description must be at least 10 characters long");
    var later := LaterRules(body, dates, nowMs);
    TextChainsFirst(c, d, later);
    c + (d + later)
  }

  /** The category errors, then the description errors, then the later chains' errors, are in field order. */
  lemma TextChainsFirst(c: seq<FieldError>, d: seq<FieldError>, later: seq<FieldError>)
    requires forall e :: e in c ==> e.field == "category"
    requires forall e :: e in d ==> e.field == "description"
    requires forall e :: e in later ==> 2 <= FieldRank(e.field) < 6
    requires InFieldOrder(later)
    ensures forall e :: e in c + (d + later) ==> FieldRank(e.field) < 6
    ensures InFieldOrder(c + (d + later))
  {
    FieldRanks();
    OneFieldInOrder(c, "category", 0);
    OneFieldInOrder(d, "description", 1);
    InOrderConcat(d, later, 1);
    InOrderConcat(c, d + later, 0);
  }

  /** The chains after the two text fields: dueDate, status, urgency, userReminded. */
  function LaterRules(body: TaskBody, dates: DateLib, nowMs: int): (r: seq<FieldError>)
    ensures forall e :: e in r ==> 2 <= FieldRank(e.field) < 6
    ensures InFieldOrder(r)
  {
    var due := DueDateRules(body.dueDate, dates, nowMs);
    var status := OptionalInRule("status", body.status, STATUSES, "Status must be one of: pending, in-progress, completed");
    var urgency := OptionalInRule("urgency", body.urgency, URGENCIES, "Urgency must be one of: urgent, normal");
    var reminded := OptionalBooleanRule(body.userReminded);
    LaterChainsInOrder(due, status, urgency, reminded);
    due + (status + (urgency + reminded))
  }

  /** The dueDate, status, urgency and userReminded errors, joined in that order, are in field order. */
  lemma LaterChainsInOrder(due: seq<FieldError>, status: seq<FieldError>, urgency: seq<FieldError>, reminded: seq<FieldError>)
    requires forall e :: e in due ==> e.field == "dueDate"
    requires forall e :: e in status ==> e.field == "status"
    requires forall e :: e in urgency ==> e.field == "urgency"
    requires forall e :: e in reminded ==> e.field == "userReminded"
    ensures forall e :: e in due + (status + (urgency + reminded)) ==> 2 <= FieldRank(e.field) < 6
    ensures InFieldOrder(due + (status + (urgency + reminded)))
  {
    FieldRanks();
    OneFieldInOrder(due, "dueDate", 2);
    OneFieldInOrder(status, "status", 3);
    OneFieldInOrder(urgency, "urgency", 4);
    OneFieldInOrder(reminded, "userReminded", 5);
    InOrderConcat(urgency, reminded, 4);
    InOrderConcat(status, urgency + reminded, 3);
    InOrderConcat(due, status + (urgency + reminded), 2);
  }

  /** The rank of each body field. */
  lemma FieldRanks()
    ensures FieldRank("category") == 0 && FieldRank("description") == 1 && FieldRank("dueDate") == 2
    ensures FieldRank("status") == 3 && FieldRank("urgency") == 4 && FieldRank("userReminded") == 5
  {
  }

  /** Errors of one field are in field order. */
  lemma OneFieldInOrder(r: seq<FieldError>, field: string, k: nat)
    requires FieldRank(field) == k
    requires forall e :: e in r ==> e.field == field
    ensures InFieldOrder(r)
    ensures forall e :: e in r ==> FieldRank(e.field) == k
  {
    forall i, j | 0 <= i < j < |r|
      ensures FieldRank(r[i].field) <= FieldRank(r[j].field)
    {
      assert r[i] in r && r[j] in r;
    }
  }

  /** Two lists in field order, the first no later than rank k and the second no earlier, stay in order joined. */
  lemma InOrderConcat(a: seq<FieldError>, b: seq<FieldError>, k: nat)
    requires InFieldOrder(a) && InFieldOrder(b)
    requires forall x :: x in a ==> FieldRank(x.field) <= k
    requires forall y :: y in b ==> k <= FieldRank(y.field)
    ensures InFieldOrder(a + b)
  {
    var r := a + b;
    forall i, j | 0 <= i < j < |r|
      ensures FieldRank(r[i].field) <= FieldRank(r[j].field)
    {
      if j < |a| {
        assert r[i] == a[i] && r[j] == a[j];
      } else if |a| <= i {
        assert r[i] == b[i - |a|] && r[j] == b[j - |a|];
      } else {
        assert r[i] == a[i] && r[j] == b[j - |a|];
        assert a[i] in a && b[j - |a|] in b;
      }
    }
  }

  predicate IsHexDigit(c: char)
  {
    '0' <= c <= '9' || 'a' <= c <= 'f' || 'A' <= c <= 'F'
  }

  /** One or more hexadecimal digits. */
  predicate HexDigits(s: string)
  {
    s != [] && forall i :: 0 <= i < |s| ==> IsHexDigit(s[i])
  }

  /** validator.js `isHexadecimal`: hexadecimal digits, optionally after a `0x` or `0h` prefix in either case. */
  predicate IsHexadecimal(s: string)
  {
    HexDigits(s) || (|s| >= 2 && s[0] == '0' && s[1] in "xXhH" && HexDigits(s[2..]))
  }

  /** validator.js `isMongoId`: hexadecimal, and 24 characters long, the prefix included. */
  predicate IsMongoId(s: string)
  {
    IsHexadecimal(s) && |s| == 24
  }

  /** The prefix counts towards the length: "0x" and 22 digits pass, as 24 bare digits do. */
  lemma PrefixedIdPasses(digits: string)
    requires |digits| == 22 && forall i :: 0 <= i < |digits| ==> IsHexDigit(digits[i])
    ensures TaskIdValidation("0x" + digits) == [] && TaskIdValidation("0H" + digits) == []
    ensures TaskIdValidation(digits) == [FieldError("id", "Invalid Task ID format")]
  {
    assert ("0x" + digits)[2..] == digits;
    assert ("0H" + digits)[2..] == digits;
  }

  /** `taskIdValidation` on the `id` route parameter. */
  function TaskIdValidation(id: string): (r: seq<FieldError>)
    ensures r == [] <==> IsMongoId(id)
    ensures r != [] ==> r[0].msg == (if id == "" then "Task ID is required" else "Invalid Task ID format")
  {
    (if id == "" then [FieldError("id", "Task ID is required")] else [])
      + (if !IsMongoId(id) then [FieldError("id", "Invalid Task ID format")] else [])
  }

  /** The first message the handler reports for a list of errors, if any. */
  function FirstMessage(errors: seq<FieldError>): (r: Option<string>)
    ensures r.None? <==> errors == []
  {
    if errors == [] then None else Some(errors[0].msg)
  }

  lemma FirstMessageConcat(a: seq<FieldError>, b: seq<FieldError>)
    ensures FirstMessage(a + b) == if a != [] then FirstMessage(a) else FirstMessage(b)
  {
    if a == [] {
      assert a + b == b;
    } else {
      assert (a + b)[0] == a[0];
    }
  }

  /** A body passes the task rules exactly when every field is acceptable. */
  lemma TaskValidationPasses(body: TaskBody, dates: DateLib, nowMs: int)
    ensures var due := AsString(body.dueDate);
      TaskValidation(body, dates, nowMs) == [] <==>
        && Length(Trim(AsString(body.category))) >= 3
        && Length(Trim(AsString(body.description))) >= 10
        && dates.isIso8601(due) && dates.parse(due).Some? && dates.parse(due).value > nowMs
        && (body.status.None? || AsString(body.status) in STATUSES)
        && (body.urgency.None? || AsString(body.urgency) in URGENCIES)
        && (body.userReminded.None? || IsBoolean(body.userReminded.value))
  {
    var due := AsString(body.dueDate);
    var dd := DueDateRules(body.dueDate, dates, nowMs);
    assert dd == [] <==> dates.isIso8601(due) && dates.parse(due).Some? && dates.parse(due).value > nowMs by {
      if dd != [] {
        assert dd[0] in dd;
      }
    }
  }

  /** `new Date(value) > new Date()`, on an ISO 8601 date. */
  predicate InFuture(v: Option<Value>, dates: DateLib, nowMs: int)
  {
    dates.parse(AsString(v)).Some? && dates.parse(AsString(v)).value > nowMs
  }

  predicate OptionalIn(v: Option<Value>, allowed: seq<string>)
  {
    v.None? || AsString(v) in allowed
  }

  /** The dueDate chain passes. */
  predicate DueOk(body: TaskBody, dates: DateLib, nowMs: int)
  {
    dates.isIso8601(AsString(body.dueDate)) && InFuture(body.dueDate, dates, nowMs)
  }

  /** The first message of the chains after the text fields, in the order dueDate, status, urgency, userReminded. */
  lemma LaterFirstMessage(body: TaskBody, dates: DateLib, nowMs: int)
    ensures var due := AsString(body.dueDate);
      var first := FirstMessage(LaterRules(body, dates, nowMs));
      && (!dates.isIso8601(due) ==> first == Some("Invalid date format"))
      && (dates.isIso8601(due) && !InFuture(body.dueDate, dates, nowMs) ==> first == Some("Date must be in the future"))
      && (DueOk(body, dates, nowMs) && !OptionalIn(body.status, STATUSES) ==>
            first == Some("Status must be one of: pending, in-progress, completed"))
      && (DueOk(body, dates, nowMs) && OptionalIn(body.status, STATUSES) && !OptionalIn(body.urgency, URGENCIES) ==>
            first == Some("Urgency must be one of: urgent, normal"))
      && (DueOk(body, dates, nowMs) && OptionalIn(body.status, STATUSES) && OptionalIn(body.urgency, URGENCIES)
          && !(body.userReminded.None? || IsBoolean(body.userReminded.value)) ==>
            first == Some("User Reminded must be true or false"))
  {
    var dd := DueDateRules(body.dueDate, dates, nowMs);
    var st := OptionalInRule("status", body.status, STATUSES, "Status must be one of: pending, in-progress, completed");
    var ur := OptionalInRule("urgency", body.urgency, URGENCIES, "Urgency must be one of: urgent, normal");
    var bo := OptionalBooleanRule(body.userReminded);
    FirstMessageConcat(dd, st + (ur + bo));
    FirstMessageConcat(st, ur + bo);
    FirstMessageConcat(ur, bo);
    assert dd == [] <==> DueOk(body, dates, nowMs) by {
      if dd != [] {
        assert dd[0] in dd;
      }
    }
  }

  /**
   * Otherwise the handler reports the first message of the first failing
   * field, in the order category, description, dueDate, status, urgency,
   * userReminded; within a field the first failing rule's message.
   */
  lemma FirstFailingField(body: TaskBody, dates: DateLib, nowMs: int)
    ensures var cat := Trim(AsString(body.category));
      var desc := Trim(AsString(body.description));
      var first := FirstMessage(TaskValidation(body, dates, nowMs));
      && (cat == "" ==> first == Some("Category is required"))
      && (cat != "" && Length(cat) < 3 ==> first == Some("Category must be at least 3 characters long"))
      && (Length(cat) >= 3 && desc == "" ==> first == Some("Description is required"))
      && (Length(cat) >= 3 && desc != "" && Length(desc) < 10 ==> first == Some("Description must be at least 10 characters long"))
      && (Length(cat) >= 3 && Length(desc) >= 10 ==> first == FirstMessage(LaterRules(body, dates, nowMs)))
  {
    var c := TrimmedTextRules("category", body.category, 3, "Category is required", "Category must be at least 3 characters long");
    var d := TrimmedTextRules("description", body.description, 10, "Description is required", "Description must be at least 10 characters long");
    var later := LaterRules(body, dates, nowMs);
    FirstMessageConcat(c, d + later);
    FirstMessageConcat(d, later);
  }

  /**
   * On `PUT /tasks/:id` the id rules run before the body rules
   * (backend/src/routes/task.route.ts), so a bad id is what gets reported,
   * whatever the body.
   */
  lemma IdErrorsComeFirst(id: string, body: TaskBody, dates: DateLib, nowMs: int)
    requires !IsMongoId(id)
    ensures ValidationErrorHandler(Success(TaskIdValidation(id) + TaskValidation(body, dates, nowMs)))
      == [NextWith(Http(BadRequestError, if id == "" then "Task ID is required" else "Invalid Task ID format"))]
  {
  }
}
