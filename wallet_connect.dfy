/** The address shortening shown next to a connected wallet. */
module WalletConnect {
  import opened Wrappers
  import JsText

  /**
   * `formatAddress`: an absent or empty address gives the empty string;
   * otherwise the first six characters, an ellipsis and the last four,
   * where `slice` clamps both pieces to the address length.
   */
  function FormatAddress(addr: Option<string>): (r: string)
    ensures r == "" <==> addr.None? || addr.value == ""
    ensures addr.Some? && addr.value != "" ==>
      var n := |addr.value|;
      var head, tail := JsText.Min(6, n), JsText.Min(4, n);
      && |r| == head + 3 + tail
      && r == addr.value[..head] + "..." + addr.value[n - tail..]
      && r[head..head + 3] == "..."
  {
    if addr.None? || addr.value == "" then ""
    else
      var a := addr.value;
      JsText.Slice(a, 0, 6) + "..." + JsText.Slice(a, -4, |a|)
  }

  /** An address of six or more characters keeps its first six and its last four characters. */
  lemma FormatAddressKeepsEnds(addr: string)
    requires |addr| >= 6
    ensures var r := FormatAddress(Some(addr));
      && r[..6] == addr[..6]
      && r[|r| - 4..] == addr[|addr| - 4..]
  {
    var r := FormatAddress(Some(addr));
    assert r == addr[..6] + "..." + addr[|addr| - 4..];
  }

  /** A full 20-byte hex address (42 characters) shortens to 13 characters that keep its ends. */
  lemma FormatFullAddress(addr: string)
    requires |addr| == 42
    ensures |FormatAddress(Some(addr))| == 13
    ensures FormatAddress(Some(addr))[..6] == addr[..6]
    ensures FormatAddress(Some(addr))[6..9] == "..."
    ensures FormatAddress(Some(addr))[9..] == addr[38..]
  {
    var r := FormatAddress(Some(addr));
    assert r == addr[..6] + "..." + addr[38..];
  }
}
