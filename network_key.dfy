/**
 * The network key resolver of `PersistentStatsHandler`: which network is
 * active, what the Wi-Fi SSID hashes to, and the string key under which the
 * average speed of that network is stored.
 *
 * The Android services are inputs: `ConnectivityService` is what
 * `ConnectivityManager` answers, a `WifiConnection` is what
 * `WifiManager.getConnectionInfo()` returns, and `hash` is `String.hashCode`.
 */
module NetworkKeys {
  import opened Options
  import opened JavaInt

  const WifiType: string := "WIFI"
  const MobileType: string := "mobile"
  const UnknownKey: string := "unknown"

  /** The two fields of `android.net.NetworkInfo` the resolver reads; either may be null. */
  datatype NetworkInfo = NetworkInfo(typeName: Option<string>, subtypeName: Option<string>)

  /** `WifiInfo`: the SSID may be null. */
  datatype WifiConnection = WifiConnection(ssid: Option<string>)

  /** What asking the connectivity service for the active network can give. */
  datatype ConnectivityService =
    | NoService                                // getSystemService returned null
    | PermissionDenied                         // the query threw SecurityException
    | Service(active: Option<NetworkInfo>)     // the answer, null when nothing is connected

  /** The state of the device's network services at one moment. */
  datatype Environment = Environment(connectivity: ConnectivityService, wifi: Option<WifiConnection>)

  /** The network a key names. */
  datatype NetworkIdentity = Wifi(ssidHash: int32) | Mobile(subtype: string) | Unknown

  /** `getActiveNetworkInfo`: null when the service is missing or refuses the query. */
  function ActiveNetworkInfo(c: ConnectivityService): (r: Option<NetworkInfo>)
    ensures c.NoService? || c.PermissionDenied? ==> r == None
    ensures c.Service? ==> r == c.active
  {
    match c
    case Service(active) => active
    case _ => None
  }

  /** `TextUtils.isEmpty`: null or of length zero. */
  predicate IsEmpty(s: Option<string>): (b: bool)
    ensures b <==> s.None? || |s.value| == 0
  {
    s.None? || s.value == ""
  }

  /** `getWifiSSID`: the hash of the SSID, or -1 when there is no connection info or no SSID. */
  function WifiSSID(wifi: Option<WifiConnection>, hash: string -> int32): (r: int32)
    ensures wifi.None? || IsEmpty(wifi.value.ssid) ==> r == -1
    ensures wifi.Some? && !IsEmpty(wifi.value.ssid) ==> r == hash(wifi.value.ssid.value)
  {
    if wifi.Some? && !IsEmpty(wifi.value.ssid) then hash(wifi.value.ssid.value) else -1
  }

  /** Java string concatenation renders a null reference as "null". */
  function Rendered(s: Option<string>): (r: string)
    ensures s.Some? ==> r == s.value
    ensures s.None? ==> r == "null"
  {
    s.GetOr("null")
  }

  /** `getNetworkKey`, given the Wi-Fi state it reads through `getWifiSSID`. */
  function NetworkKey(info: Option<NetworkInfo>, wifi: Option<WifiConnection>, hash: string -> int32): (r: string)
    ensures r == UnknownKey <==>
              !(info.Some? && info.value.typeName in {Some(WifiType), Some(MobileType)})
    ensures r == KeyOf(Identify(info, WifiSSID(wifi, hash)))
    ensures ParseKey(r) == Some(Identify(info, WifiSSID(wifi, hash)))
  {
    var key :=
      if info.Some? && info.value.typeName.Some? then
        if info.value.typeName.value == WifiType then
          WifiType + "_" + IntToDecimal(WifiSSID(wifi, hash) as int)
        else if info.value.typeName.value == MobileType then
          MobileType + "_" + Rendered(info.value.subtypeName)
        else UnknownKey
      else UnknownKey;
    KeyDecodes(Identify(info, WifiSSID(wifi, hash)));
    assert key == KeyOf(Identify(info, WifiSSID(wifi, hash)));
    key
  }

  /** The key of the network the device is on now: `getNetworkKey(getActiveNetworkInfo())`. */
  function CurrentNetworkKey(env: Environment, hash: string -> int32): (r: string)
    ensures env.connectivity.NoService? || env.connectivity.PermissionDenied? ==> r == UnknownKey
    ensures env.connectivity == Service(None) ==> r == UnknownKey
  {
    NetworkKey(ActiveNetworkInfo(env.connectivity), env.wifi, hash)
  }

  /** Which network a `NetworkInfo` describes, given the SSID hash. */
  function Identify(info: Option<NetworkInfo>, ssidHash: int32): NetworkIdentity {
    if info.Some? && info.value.typeName == Some(WifiType) then Wifi(ssidHash)
    else if info.Some? && info.value.typeName == Some(MobileType) then Mobile(Rendered(info.value.subtypeName))
    else Unknown
  }

  /** The key format: "WIFI_" + decimal hash, "mobile_" + subtype, or "unknown". */
  function KeyOf(id: NetworkIdentity): string {
    match id
    case Wifi(h) => WifiType + "_" + IntToDecimal(h as int)
    case Mobile(sub) => MobileType + "_" + sub
    case Unknown => UnknownKey
  }

  /** Reads a key back into the network it names. */
  function ParseKey(key: string): Option<NetworkIdentity> {
    var wifiPrefix, mobilePrefix := WifiType + "_", MobileType + "_";
    if |key| >= |wifiPrefix| && key[..|wifiPrefix|] == wifiPrefix then
      match ParseInt(key[|wifiPrefix|..])
      case Some(h) => if Int32Min <= h <= Int32Max then Some(Wifi(h as int32)) else None
      case None => None
    else if |key| >= |mobilePrefix| && key[..|mobilePrefix|] == mobilePrefix then Some(Mobile(key[|mobilePrefix|..]))
    else if key == UnknownKey then Some(Unknown)
    else None
  }

  /** Every key reads back as the network it was made from. */
  lemma KeyDecodes(id: NetworkIdentity)
    ensures ParseKey(KeyOf(id)) == Some(id)
  {
    var key := KeyOf(id);
    var wifiPrefix, mobilePrefix := WifiType + "_", MobileType + "_";
    match id
    case Wifi(h) =>
      var digits := IntToDecimal(h as int);
      assert key == wifiPrefix + digits;
      assert key[..|wifiPrefix|] == wifiPrefix && key[|wifiPrefix|..] == digits;
      ParseIntToDecimal(h as int);
    case Mobile(sub) =>
      assert key == mobilePrefix + sub;
      assert key[0] == 'm';
      assert key[..|mobilePrefix|] == mobilePrefix && key[|mobilePrefix|..] == sub;
    case Unknown =>
      assert key[0] == 'u';
  }

  /**
   * Two different network identities never share a store entry. Identities are
   * taken after hashing, so two SSIDs with the same hash, or an SSID hashing to
   * -1 and a Wi-Fi connection without an SSID, are one identity and share a key.
   */
  lemma DistinctNetworksDistinctKeys(a: NetworkIdentity, b: NetworkIdentity)
    requires a != b
    ensures KeyOf(a) != KeyOf(b)
  {
    KeyDecodes(a);
    KeyDecodes(b);
  }

  /** Two Wi-Fi networks get the same key exactly when their SSIDs hash alike. */
  lemma WifiKeysAgreeIffHashesAgree(info: NetworkInfo, w1: Option<WifiConnection>, w2: Option<WifiConnection>,
                                    hash: string -> int32)
    requires info.typeName == Some(WifiType)
    ensures NetworkKey(Some(info), w1, hash) == NetworkKey(Some(info), w2, hash)
            <==> WifiSSID(w1, hash) == WifiSSID(w2, hash)
  {
  }
}
