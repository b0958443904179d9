/** The API exceptions of hertavilla/exception.py: `raise_exception` on a
    response payload, the retcode exception's `to_dict`, and the `repr` of
    `CallingApiException` and `HTTPStatusError`. */
module Exceptions {
  import opened Wrappers
  import opened Json
  import Decimal

  /** `CallingApiException(retcode, message)`, holding the payload's values
      as they are. */
  datatype CallingApiException = CallingApiException(retcode: Json, message: Json)

  /** What `raise_exception` raises: a `KeyError` for a missing key, or the
      API exception. */
  datatype ApiError = PayloadKeyError | Raised(exception: CallingApiException)

  /** `raise_exception(payload)`: returns exactly when the retcode equals
      0, and raises the exception with the payload's retcode and message
      otherwise. */
  function RaiseException(payload: map<string, Json>): (r: Outcome<ApiError>)
    ensures r.Pass? <==> "retcode" in payload && EqualsZero(payload["retcode"])
    ensures r == Fail(PayloadKeyError) <==>
      "retcode" !in payload || (!EqualsZero(payload["retcode"]) && "message" !in payload)
    ensures r.Fail? && r.error.Raised? ==>
      r.error.exception == CallingApiException(payload["retcode"], payload["message"])
  {
    if "retcode" !in payload then Fail(PayloadKeyError)
    else if EqualsZero(payload["retcode"]) then Pass
    else if "message" !in payload then Fail(PayloadKeyError)
    else Fail(Raised(CallingApiException(payload["retcode"], payload["message"])))
  }

  /** `to_dict()`: exactly the retcode and the message. */
  function ToDict(e: CallingApiException): (d: map<string, Json>)
    ensures d.Keys == {"retcode", "message"}
    ensures d["retcode"] == e.retcode && d["message"] == e.message
  {
    map["retcode" := e.retcode, "message" := e.message]
  }

  /** The exception a failing payload raises gives back, through
      `to_dict`, the payload's own retcode and message. */
  lemma RaisedToDict(payload: map<string, Json>)
    requires "retcode" in payload && "message" in payload && !EqualsZero(payload["retcode"])
    ensures RaiseException(payload).Fail? && RaiseException(payload).error.Raised?
    ensures ToDict(RaiseException(payload).error.exception) == map k | k in payload && k in {"retcode", "message"} :: payload[k]
  {
  }

  /** A character `repr` writes as it is: printable ASCII other than the
      quote and the backslash. */
  predicate ReprPlain(c: char) {
    ' ' <= c <= '~' && c != '\'' && c != '\\'
  }

  /** `repr(s)` for a string of plain characters: the string in single
      quotes. Escapes are not modelled (None). */
  function StrRepr(s: string): (r: Option<string>)
    ensures r.Some? <==> forall k :: 0 <= k < |s| ==> ReprPlain(s[k])
    ensures r.Some? ==> |r.value| == |s| + 2 && r.value[0] == '\'' && r.value[1..|s| + 1] == s
  {
    if forall k :: 0 <= k < |s| ==> ReprPlain(s[k]) then Some("'" + s + "'") else None
  }

  const CALLING_API_PREFIX: string := "<CallingApiException retcode="
  const MESSAGE_FIELD: string := ", message="

  /** What follows the retcode in the representation: the message field
      and the closing bracket. */
  function MessageTail(quoted: string): string {
    MESSAGE_FIELD + (quoted + ">")
  }

  /** `repr(e)` (and `str(e)`, which returns it), for an integer retcode and a
      message of plain characters; None where the model does not go. */
  function CallingApiRepr(e: CallingApiException): (r: Option<string>)
    ensures r.Some? <==> e.retcode.JInt? && e.message.JStr? && StrRepr(e.message.s).Some?
    ensures r.Some? ==> CALLING_API_PREFIX <= r.value && r.value[|r.value| - 1] == '>'
  {
    if e.retcode.JInt? && e.message.JStr? && StrRepr(e.message.s).Some? then
      Some(CALLING_API_PREFIX + (Decimal.IntToString(e.retcode.i) + MessageTail(StrRepr(e.message.s).value)))
    else None
  }

  /** A common prefix cancels. */
  lemma PrefixCancel(p: string, x: string, y: string)
    requires p + x == p + y
    ensures x == y
  {
    assert x == (p + x)[|p|..] && y == (p + y)[|p|..];
  }

  /** A string without commas followed by one starting with a comma has
      its first comma right after the first part. */
  lemma FirstCommaAt(a: string, b: string)
    requires forall k :: 0 <= k < |a| ==> a[k] != ','
    requires |b| > 0 && b[0] == ','
    ensures forall k :: 0 <= k < |a| ==> (a + b)[k] != ','
    ensures (a + b)[|a|] == ','
  {
  }

  /** Two strings each split at its first comma agree on both parts. */
  lemma SplitAtComma(a1: string, b1: string, a2: string, b2: string)
    requires forall k :: 0 <= k < |a1| ==> a1[k] != ','
    requires forall k :: 0 <= k < |a2| ==> a2[k] != ','
    requires |b1| > 0 && b1[0] == ',' && |b2| > 0 && b2[0] == ','
    requires a1 + b1 == a2 + b2
    ensures a1 == a2 && b1 == b2
  {
    FirstCommaAt(a1, b1);
    FirstCommaAt(a2, b2);
    assert |a1| == |a2|;
    assert a1 == (a1 + b1)[..|a1|] && a2 == (a2 + b2)[..|a2|];
    assert b1 == (a1 + b1)[|a1|..] && b2 == (a2 + b2)[|a2|..];
  }

  /** The message field gives back the message. */
  lemma MessageTailInjective(s1: string, s2: string)
    requires StrRepr(s1).Some? && StrRepr(s2).Some?
    requires MessageTail(StrRepr(s1).value) == MessageTail(StrRepr(s2).value)
    ensures s1 == s2
  {
    var q1, q2 := StrRepr(s1).value, StrRepr(s2).value;
    PrefixCancel(MESSAGE_FIELD, q1 + ">", q2 + ">");
    assert q1 == (q1 + ">")[..|q1|] && q2 == (q2 + ">")[..|q2|];
    assert s1 == q1[1..|s1| + 1] && s2 == q2[1..|s2| + 1];
  }

  /** The representation tells exceptions apart: equal reprs mean equal
      retcodes and messages. */
  lemma CallingApiReprInjective(e1: CallingApiException, e2: CallingApiException)
    requires CallingApiRepr(e1).Some? && CallingApiRepr(e2).Some?
    requires CallingApiRepr(e1) == CallingApiRepr(e2)
    ensures e1 == e2
  {
    var n1, n2 := Decimal.IntToString(e1.retcode.i), Decimal.IntToString(e2.retcode.i);
    var t1, t2 := MessageTail(StrRepr(e1.message.s).value), MessageTail(StrRepr(e2.message.s).value);
    PrefixCancel(CALLING_API_PREFIX, n1 + t1, n2 + t2);
    Decimal.IntToStringChars(e1.retcode.i);
    Decimal.IntToStringChars(e2.retcode.i);
    SplitAtComma(n1, t1, n2, t2);
    Decimal.IntToStringInjective(e1.retcode.i, e2.retcode.i);
    MessageTailInjective(e1.message.s, e2.message.s);
  }

  /** `HTTPStatusError(status).__repr__` as written: the string lacks the f
      prefix, so the placeholder is returned literally, and the closing
      bracket is missing. */
  function HttpStatusReprAsWritten(status: int): (r: string)
    ensures |r| > 0 && r[|r| - 1] != '>'
  {
    "<HTTPStatusError status={self.status}"
  }

  /** As written, the representation does not depend on the status. */
  lemma HttpStatusReprLosesStatus()
    ensures HttpStatusReprAsWritten(404) == HttpStatusReprAsWritten(500)
  {
  }

  /** `HTTPStatusError(status).__repr__` as intended: the status in
      decimal, then the closing bracket. */
  function HttpStatusRepr(status: int): (r: string)
    ensures |r| > 0 && r[|r| - 1] == '>'
  {
    "<HTTPStatusError status=" + Decimal.IntToString(status) + ">"
  }

  /** As intended, the representation gives the status back. */
  lemma HttpStatusReprReadsBack(status: int)
    ensures var r := HttpStatusRepr(status);
      Decimal.ParseInt(r[|"<HTTPStatusError status="|..|r| - 1]) == Some(status)
  {
    var r := HttpStatusRepr(status);
    assert r[|"<HTTPStatusError status="|..|r| - 1] == Decimal.IntToString(status);
    Decimal.ParseIntToString(status);
  }
}
