/**
 * The endpoint addresses the patched client is pointed at, all derived from
 * the server address given on the command line by string interpolation.
 */
module Endpoints {
  import opened Wrappers
  import Targets

  const Scheme: string := "http://"
  const ServersIpsSuffix: string := ":8000/gameserver_ips.json"
  const ServerStatusSuffix: string := ":8000/server_status.json"
  const TokenEndpointSuffix: string := ":8001/v20170728/api/faeria/token/"

  function FormatServersIpsAddress(serverIp: string): string {
    Scheme + serverIp + ServersIpsSuffix
  }

  function FormatServerStatusAddress(serverIp: string): string {
    Scheme + serverIp + ServerStatusSuffix
  }

  function FormatTokenEndpointAddress(serverIp: string): string {
    Scheme + serverIp + TokenEndpointSuffix
  }

  /** The host of `url` if `url` reads `http://<host><suffix>`: the inverse of the formatters. */
  function HostOf(url: string, suffix: string): (host: Option<string>)
    ensures host.Some? ==> url == Scheme + host.value + suffix
  {
    if |url| >= |Scheme| + |suffix| && url[..|Scheme|] == Scheme && url[|url| - |suffix|..] == suffix
    then
      var h := url[|Scheme|..|url| - |suffix|];
      assert url == url[..|Scheme|] + h + url[|url| - |suffix|..];
      Some(h)
    else None
  }

  /** Stripping the scheme and a suffix from `http://<h><suffix>` gives back `h`. */
  lemma {:induction false} HostOfRoundTrip(h: string, suffix: string)
    ensures HostOf(Scheme + h + suffix, suffix) == Some(h)
  {
    var url := Scheme + h + suffix;
    assert url[..|Scheme|] == Scheme;
    assert url[|url| - |suffix|..] == suffix;
    assert url[|Scheme|..|url| - |suffix|] == h;
  }

  /** Each formatter gives back its server address when its fixed parts are stripped. */
  lemma FormattersRoundTrip(serverIp: string)
    ensures HostOf(FormatServersIpsAddress(serverIp), ServersIpsSuffix) == Some(serverIp)
    ensures HostOf(FormatServerStatusAddress(serverIp), ServerStatusSuffix) == Some(serverIp)
    ensures HostOf(FormatTokenEndpointAddress(serverIp), TokenEndpointSuffix) == Some(serverIp)
  {
    HostOfRoundTrip(serverIp, ServersIpsSuffix);
    HostOfRoundTrip(serverIp, ServerStatusSuffix);
    HostOfRoundTrip(serverIp, TokenEndpointSuffix);
  }

  /** Different server addresses give different endpoints. */
  lemma FormattersInjective(a: string, b: string)
    ensures FormatServersIpsAddress(a) == FormatServersIpsAddress(b) ==> a == b
    ensures FormatServerStatusAddress(a) == FormatServerStatusAddress(b) ==> a == b
    ensures FormatTokenEndpointAddress(a) == FormatTokenEndpointAddress(b) ==> a == b
  {
    FormattersRoundTrip(a);
    FormattersRoundTrip(b);
  }

  /**
   * The replacement login endpoint is never the original one, whatever the
   * server address: the original uses `https`, the replacement `http`.
   */
  lemma TokenEndpointIsNotOriginal(serverIp: string)
    ensures FormatTokenEndpointAddress(serverIp) != Targets.OriginalLoginApiAddress
  {
    assert FormatTokenEndpointAddress(serverIp)[4] == ':';
    assert Targets.OriginalLoginApiAddress[4] == 's';
  }
}
