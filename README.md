# okhttp-stats: the persistent stats handler

This project models the core of `PersistentStatsHandler` from the okhttp-stats library. The handler gets told of every
finished HTTP exchange. It counts successful responses. Each time the count reaches the threshold `MAX_SIZE`
(10 by default), it **folds**:

- it blends the network-speed collector's running average into its own average as `(old + batch) / 2`;
- it writes the new average to the preference store, under a key naming the current network;
- it resets the count to 0.

After the counter section, the response's sample is handed to the collector (`NetworkStat.addRequestStat`), so the
response that triggers a fold counts towards the next batch. Transport and stream errors reach only the listeners.

The network key is `"WIFI_" + <hash of the SSID>`, `"mobile_" + <subtype name>` or `"unknown"`. The SSID hash is
`-1` when there is no SSID.

Layout:

- `options.dfy`: `Option`, the stand-in for Java's null.
- `java_int.dfy`: Java's 32-bit `int` and `Integer.toString`, with a parser that inverts it.
- `network_key.dfy`: the key resolver as pure functions over the state of the device's network services.
- `fold_counter.dfy`: the counter logic as pure functions, and the fold-count lemmas.
- `stats_handler.dfy`: the handler as a class whose methods update its fields as the Java methods do.

The Android collaborators are inputs:

- `ConnectivityManager`'s answer is a `ConnectivityService` value: no service, permission denied, or the active
  `NetworkInfo` (possibly null). It is passed to each call as part of an `Environment`.
- `WifiManager.getConnectionInfo()` is an optional `WifiConnection`, also part of the `Environment`.
- `String.hashCode` is the constant function `hash`.
- The shared preferences are a `map<string, real>` field.
- `NetworkStat`'s running average is the constant function `collectorAverage` of the samples recorded so far.
  Those samples are a `seq` field.

Speeds are `real`. The count and `MAX_SIZE` are 32-bit `int32` values. The class invariant keeps the count below
`Int32Max`, so the increment never wraps.

The model keeps these behaviours of the code, which a reader might not expect:

- the collector is never reset after a fold;
- `setMaxSizeForPersistence` stores any value, including zero and negative ones. With such a threshold, every
  response folds (`FoldCounter.NonPositiveThresholdFoldsEveryTime`);
- listener exceptions are not caught.

## Model

| member | source | states |
|---|---|---|
| `JavaInt.IntToDecimal` | library/src/main/java/com/flipkart/okhttpstats/handler/PersistentStatsHandler.java:211 | `Integer.toString`: a minus sign exactly when the int is negative, then decimal digits with no leading zero; zero is "0" |
| `JavaInt.ParseIntToDecimal` | library/src/main/java/com/flipkart/okhttpstats/handler/PersistentStatsHandler.java:211 | the decimal rendering of any int, as concatenated into a Wi-Fi key, reads back as that int |
| `JavaInt.IntToDecimalInjective` | library/src/main/java/com/flipkart/okhttpstats/handler/PersistentStatsHandler.java:211 | two ints with the same decimal rendering are equal |
| `NetworkKeys.ActiveNetworkInfo` | library/src/main/java/com/flipkart/okhttpstats/handler/PersistentStatsHandler.java:93-102 | null when the connectivity service is missing or throws SecurityException, otherwise the service's answer |
| `NetworkKeys.IsEmpty` | library/src/main/java/com/flipkart/okhttpstats/handler/PersistentStatsHandler.java:225 | `TextUtils.isEmpty`: true exactly for a null or zero-length string |
| `NetworkKeys.WifiSSID` | library/src/main/java/com/flipkart/okhttpstats/handler/PersistentStatsHandler.java:220-230 | -1 when there is no connection info or the SSID is null or empty, otherwise the SSID's hash |
| `NetworkKeys.Rendered` | library/src/main/java/com/flipkart/okhttpstats/handler/PersistentStatsHandler.java:213 | string concatenation renders a present string as itself and a null one as "null" |
| `NetworkKeys.NetworkKey` | library/src/main/java/com/flipkart/okhttpstats/handler/PersistentStatsHandler.java:207-218 | the key is exactly the format of `KeyOf` for the identified network: "WIFI_" + `Integer.toString` of the SSID hash, "mobile_" + the subtype name ("null" for a null subtype), or "unknown"; it is "unknown" exactly when the info is absent or its type name is neither "WIFI" nor "mobile"; and it decodes back to that network |
| `NetworkKeys.CurrentNetworkKey` | library/src/main/java/com/flipkart/okhttpstats/handler/PersistentStatsHandler.java:75 | with no connectivity service, a denied query or no active network the key is "unknown" |
| `NetworkKeys.KeyDecodes` | library/src/main/java/com/flipkart/okhttpstats/handler/PersistentStatsHandler.java:208-218 | every key in the "WIFI_"/"mobile_"/"unknown" format reads back as the network identity it was built from |
| `NetworkKeys.DistinctNetworksDistinctKeys` | library/src/main/java/com/flipkart/okhttpstats/handler/PersistentStatsHandler.java:208-218 | two different network identities never share a store key; identities are taken after hashing, so SSIDs with equal hashes (or hashing to the -1 sentinel) share one |
| `NetworkKeys.WifiKeysAgreeIffHashesAgree` | library/src/main/java/com/flipkart/okhttpstats/handler/PersistentStatsHandler.java:210-211 | on Wi-Fi, two keys are equal if and only if the SSID hashes (or -1 sentinels) are equal |
| `FoldCounter.CountStep` | library/src/main/java/com/flipkart/okhttpstats/handler/PersistentStatsHandler.java:159-168 | from a non-negative count, a response folds if and only if the count becomes 0; without a fold the count goes up by one; with threshold at least 1 the new count is in [0, threshold); with threshold at most 0 every response folds; below threshold - 1 no fold happens |
| `FoldCounter.Run` | library/src/main/java/com/flipkart/okhttpstats/handler/PersistentStatsHandler.java:159-168 | n successive responses with a fixed threshold: zero responses change nothing, there are at most n folds, and a non-negative count stays non-negative |
| `FoldCounter.RunSnoc` | library/src/main/java/com/flipkart/okhttpstats/handler/PersistentStatsHandler.java:159-168 | one more response after n of them is one more `CountStep` on the count `Run` reached, which ties `Run` to successive `OnResponseReceived` calls |
| `FoldCounter.RunAccounts` | library/src/main/java/com/flipkart/okhttpstats/handler/PersistentStatsHandler.java:159-168 | from a count below the threshold, start count + n equals folds * threshold + final count, and the final count is below the threshold |
| `FoldCounter.FoldCount` | library/src/main/java/com/flipkart/okhttpstats/handler/PersistentStatsHandler.java:159-168 | from count c below threshold M, n responses fold exactly (c + n) / M times and leave (c + n) % M |
| `FoldCounter.FoldCountFromZero` | library/src/main/java/com/flipkart/okhttpstats/handler/PersistentStatsHandler.java:159-168 | from count 0, n responses fold n / M times and leave n % M |
| `FoldCounter.FoldPeriod` | library/src/main/java/com/flipkart/okhttpstats/handler/PersistentStatsHandler.java:159-168 | after a reset, M - 1 responses do not fold and the M-th does |
| `FoldCounter.WholeBatches` | library/src/main/java/com/flipkart/okhttpstats/handler/PersistentStatsHandler.java:159-168 | k * M responses from count 0 give exactly k folds and count 0 |
| `FoldCounter.DefaultThreshold` | library/src/main/java/com/flipkart/okhttpstats/handler/PersistentStatsHandler.java:56 | with the default threshold of 10, n responses from count 0 fold n / 10 times and leave n % 10 |
| `FoldCounter.NonPositiveThresholdFoldsEveryTime` | library/src/main/java/com/flipkart/okhttpstats/handler/PersistentStatsHandler.java:131-133 | with a threshold of 0 or less, every one of n responses folds and the count ends at 0 |
| `FoldCounter.CountStaysBelowThreshold` | library/src/main/java/com/flipkart/okhttpstats/handler/PersistentStatsHandler.java:131-133 | even after the threshold is lowered below the count, at least one response brings the count back into [0, threshold) |
| `StatsHandler.StoredSpeed` | library/src/main/java/com/flipkart/okhttpstats/handler/PersistentStatsHandler.java:75 | the stored average for a key, or 0.0 for a key never written |
| `StatsHandler.PersistentStatsHandler.constructor` | library/src/main/java/com/flipkart/okhttpstats/handler/PersistentStatsHandler.java:69-86 | threshold 10, count 0, no listeners, no samples, and the average is the stored value for the current network's key |
| `StatsHandler.PersistentStatsHandler.AddListener` | library/src/main/java/com/flipkart/okhttpstats/handler/PersistentStatsHandler.java:109-113 | the listener set gains the listener and nothing else changes |
| `StatsHandler.PersistentStatsHandler.RemoveListener` | library/src/main/java/com/flipkart/okhttpstats/handler/PersistentStatsHandler.java:120-124 | the listener set loses the listener and nothing else changes |
| `StatsHandler.PersistentStatsHandler.SetMaxSizeForPersistence` | library/src/main/java/com/flipkart/okhttpstats/handler/PersistentStatsHandler.java:131-133 | the threshold becomes the given value, whatever its sign; the count and everything else are unchanged |
| `StatsHandler.PersistentStatsHandler.GetAverageNetworkSpeed` | library/src/main/java/com/flipkart/okhttpstats/handler/PersistentStatsHandler.java:140-142 | returns the current average and changes nothing |
| `StatsHandler.PersistentStatsHandler.OnResponseReceived` | library/src/main/java/com/flipkart/okhttpstats/handler/PersistentStatsHandler.java:158-172 | the count never wraps; the (count, folded) step is `CountStep`; with a fold the count is 0, the average is (old + collector average over the samples before this one) / 2, and the store gains exactly that value under the current key; without a fold the store and average are unchanged; no other store key changes; the sample is appended on every call, after the fold |
| `StatsHandler.PersistentStatsHandler.OnHttpExchangeError` | library/src/main/java/com/flipkart/okhttpstats/handler/PersistentStatsHandler.java:176-186 | count, threshold, average, store, samples and listeners are all unchanged |
| `StatsHandler.PersistentStatsHandler.OnResponseInputStreamError` | library/src/main/java/com/flipkart/okhttpstats/handler/PersistentStatsHandler.java:189-199 | count, threshold, average, store, samples and listeners are all unchanged |

## Left out

- Listener dispatch (lines 151-155, 181-185, 194-198). The callbacks are foreign code, and null entries in the set are skipped. Only adding and removing listeners is modelled.
- `OnResponseReceived`: the model assumes every listener returns normally. In the source a success listener that throws at line 153 aborts the call before the counter section (158-170) and before `addRequestStat` (172), so that response is neither counted nor recorded. The model always counts and records it.
- `synchronized` and concurrency. Each call is one sequential, atomic step.
- The `(float)` cast at line 163. Averages are exact `real` values, so float rounding is not modelled.
- Logging gated by `Utils.isLoggingEnabled`. It has no effect on state.
- The `String.hashCode` algorithm. `hash` is an arbitrary function to `int32`.
- `NetworkStat`'s internals. `NetworkStat` is not part of this model. `collectorAverage` is an arbitrary function of the recorded samples.
- `PreferenceManager`'s SharedPreferences I/O. `PreferenceManager` is not part of this model. The store is an in-memory map, and reading a key that was never written is assumed to give 0.0.
- `getSystemService` returning null for the Wi-Fi service. `getWifiSSID` calls `mWifiManager.getConnectionInfo()` without a null check, so on such a device the source throws `NullPointerException`. The model assumes the Wi-Fi service is present.
- Network state changing during one call. The source asks the system again at each query. The model passes one `Environment` per call.
- `flipperf/src/main/java/com/flipkart/flipperf/NetworkManager.java`. It is an interface with no logic.
