/** What the React pages share: JavaScript's string length, the `x || fallback`
    idiom on messages, and the outcomes of a `fetch` whose JSON body is read. */
module Frontend {
  import opened Common

  /** `s.length` in JavaScript counts UTF-16 code units: a character past U+FFFF
      takes two. */
  function Utf16Length(s: string): (r: nat)
    ensures |s| <= r <= 2 * |s|
    ensures (forall i :: 0 <= i < |s| ==> s[i] as int < 0x10000) ==> r == |s|
  {
    if s == [] then 0 else (if s[0] as int < 0x10000 then 1 else 2) + Utf16Length(s[1..])
  }

  /** `message || fallback`: an absent or empty message gives way to the fallback. */
  function OrElse(message: Option<string>, fallback: string): (r: string)
    ensures r == fallback <==> message.None? || message.value == [] || message.value == fallback
    ensures r != fallback ==> message == Some(r)
  {
    if message.Some? && message.value != [] then message.value else fallback
  }

  /** How an awaited `fetch` followed by `response.json()` ends: a response, ok or
      not, with the `message` field of its JSON body when there is one; or a thrown
      error, either from the network or from a body that is not JSON. */
  datatype FetchOutcome = Responded(ok: bool, message: Option<string>) | Threw

  const NETWORK_ERROR := "Network error. Please try again."
}
