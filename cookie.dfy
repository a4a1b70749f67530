/** The session cookie value `signature-id`: how Save builds it and how Init splits it
    at the first hyphen. Cookie values are ASCII, so characters stand for bytes. */
module Cookie {
  import opened Wrappers

  const Separator: char := '-'

  /** The index of the first `c` in `s`, or -1 when there is none (`strings.Index`). */
  function FirstIndex(s: string, c: char): (i: int)
    ensures -1 <= i < |s|
    ensures i == -1 <==> c !in s
    ensures 0 <= i ==> s[i] == c && forall k :: 0 <= k < i ==> s[k] != c
  {
    if s == [] then -1
    else if s[0] == c then 0
    else
      var j := FirstIndex(s[1..], c);
      if j == -1 then -1 else j + 1
  }

  /** Init's split of a cookie value into (signature, id). It fails when the value has no
      hyphen or its first hyphen is the last character; otherwise the signature is the
      hyphen-free text before the first hyphen and the id the non-empty rest. */
  function ParseCookie(v: string): (r: Option<(string, string)>)
    ensures r.None? <==> |v| == 0 || Separator !in v[..|v| - 1]
    ensures r.Some? ==> Separator !in r.value.0 && r.value.1 != []
    ensures r.Some? ==> r.value.0 + [Separator] + r.value.1 == v
  {
    var i := FirstIndex(v, Separator);
    if i == -1 || i >= |v| - 1 then
      assert i >= 0 ==> v[..|v| - 1] == v[..i];
      None
    else
      assert v[..|v| - 1][i] == Separator;
      assert v[..i] + [Separator] + v[i + 1..] == v;
      Some((v[..i], v[i + 1..]))
  }

  /** The cookie value Save and Clear emit for the session id `key`. */
  function CookieValue(sign: string -> string, key: string): (v: string)
    ensures |v| == |sign(key)| + 1 + |key| && v[|sign(key)|] == Separator
    ensures v[..|sign(key)|] == sign(key) && v[|sign(key)| + 1..] == key
  {
    sign(key) + [Separator] + key
  }

  /** Round trip: the value Save builds for `key` is split by Init back into
      `sign(key)` and `key`, when the signature has no hyphen and the key is not
      empty; the key itself may contain hyphens. */
  lemma CookieRoundTrip(sign: string -> string, key: string)
    requires Separator !in sign(key) && key != []
    ensures ParseCookie(CookieValue(sign, key)) == Some((sign(key), key))
  {
  }
}
