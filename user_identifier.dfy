/** The `getUserIdentifier` middleware
    (server/middleware/getUserIdentifier.js): the caller's identifier is the
    first address of `x-forwarded-for`, else the request's own address. */
module UserIdentifier {
  import opened Common

  /** `s.split(',')[0]`: the text before the first comma. */
  function FirstEntry(s: string): (r: string)
    ensures r <= s && ',' !in r
    ensures |r| == |s| || s[|r|] == ','
    ensures ',' !in s ==> r == s
  {
    if s == [] || s[0] == ',' then [] else [s[0]] + FirstEntry(s[1..])
  }

  /** The header's entries after the first never matter. */
  lemma {:induction false} FirstEntryOfList(first: string, rest: string)
    requires ',' !in first
    ensures FirstEntry(first + "," + rest) == first
    decreases |first|
  {
    if first != [] {
      assert (first + "," + rest)[1..] == first[1..] + "," + rest;
      FirstEntryOfList(first[1..], rest);
    }
  }

  /** Trimming cannot bring in a comma. */
  lemma TrimKeepsNoComma(s: string)
    requires ',' !in s
    ensures ',' !in Trim(s)
  {
    var r := Trim(s);
    var i :| 0 <= i <= |s| - |r| && OccursAt(r, s, i);
    assert forall k :: 0 <= k < |r| ==> r[k] == s[i + k];
  }

  /** A header that is not a string is `None`; `ip` and `remoteAddress` are
      `req.ip` and the socket's remote address, `None` when absent. */
  function GetUserIdentifier(forwardedFor: Option<string>, ip: Option<string>,
                             remoteAddress: Option<string>): (id: string)
    ensures forwardedFor.Some? && Trim(FirstEntry(forwardedFor.value)) != "" ==>
      id == Trim(FirstEntry(forwardedFor.value)) && ',' !in id && Trim(id) == id
    ensures (forwardedFor.None? || Trim(FirstEntry(forwardedFor.value)) == "") ==>
      id == OrElse(ip, OrElse(remoteAddress, ""))
    ensures id == "" <==>
      (forwardedFor.None? || Trim(FirstEntry(forwardedFor.value)) == "") && !Truthy(ip) && !Truthy(remoteAddress)
  {
    var fromHeader := if forwardedFor.Some? then Trim(FirstEntry(forwardedFor.value)) else "";
    if fromHeader != "" then
      TrimIdempotent(FirstEntry(forwardedFor.value));
      TrimKeepsNoComma(FirstEntry(forwardedFor.value));
      fromHeader
    else OrElse(ip, OrElse(remoteAddress, ""))
  }

  /** Only the first comma-separated entry of the header is read. */
  lemma OtherEntriesIgnored(first: string, rest: string, ip: Option<string>, remoteAddress: Option<string>)
    requires ',' !in first
    ensures GetUserIdentifier(Some(first + "," + rest), ip, remoteAddress) ==
            GetUserIdentifier(Some(first), ip, remoteAddress)
  {
    FirstEntryOfList(first, rest);
  }
}
