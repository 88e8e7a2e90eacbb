/**
 * `PersistentStatsHandler`: counts successful responses and, every
 * `maxSize` of them, blends the collector's running average into its own
 * average speed and writes the result to the preference store under the key
 * of the network the device is on.
 *
 * The class is generic in the listener handles `L` and in the request
 * records `S` (`RequestStats`), neither of which this core looks into.
 */
module StatsHandler {
  import opened JavaInt
  import opened NetworkKeys
  import opened FoldCounter

  /**
   * `PreferenceManager.getAverageSpeed`: the stored average for `key`, or 0.0
   * for a key never written.
   */
  function StoredSpeed(store: map<string, real>, key: string): (r: real)
    ensures key in store ==> r == store[key]
    ensures key !in store ==> r == 0.0
  {
    if key in store then store[key] else 0.0
  }

  class PersistentStatsHandler<L(==), S> {
    /** `String.hashCode`, used for the Wi-Fi SSID. */
    const hash: string -> int32
    /** `NetworkStat.mCurrentAvgSpeed` as a function of the samples the collector has been given. */
    const collectorAverage: seq<S> -> real

    /** `mOnResponseListeners`. */
    var listeners: set<L>
    /** `mResponseCount`. */
    var responseCount: int32
    /** `MAX_SIZE`. */
    var maxSize: int32
    /** `mCurrentAvgSpeed`. */
    var currentAvgSpeed: real
    /** The shared preferences behind `mPreferenceManager`: network key to average speed. */
    var store: map<string, real>
    /** Every sample handed to `mNetworkStat.addRequestStat`, in order. */
    var samples: seq<S>
    /** How many folds have happened. */
    ghost var folds: nat

    /** The count is below `Int32Max`, so `mResponseCount += 1` never wraps. */
    ghost predicate Valid()
      reads this
    {
      0 <= responseCount as int < Int32Max
    }

    /**
     * Both constructors: the threshold is `DEFAULT_MAX_SIZE`, the count 0, and
     * the average is what the store holds for the current network.
     */
    constructor (env: Environment, store: map<string, real>, hash: string -> int32,
                 collectorAverage: seq<S> -> real)
      ensures Valid()
      ensures maxSize as int == DefaultMaxSize && responseCount == 0
      ensures currentAvgSpeed == StoredSpeed(store, CurrentNetworkKey(env, hash))
      ensures this.store == store && this.hash == hash && this.collectorAverage == collectorAverage
      ensures listeners == {} && samples == [] && folds == 0
    {
      this.hash := hash;
      this.collectorAverage := collectorAverage;
      this.listeners := {};
      this.responseCount := 0;
      this.maxSize := DefaultMaxSize as int32;
      this.store := store;
      this.samples := [];
      this.folds := 0;
      this.currentAvgSpeed := StoredSpeed(store, CurrentNetworkKey(env, hash));
    }

    /** `addListener`. */
    method AddListener(listener: L)
      modifies this`listeners
      ensures listeners == old(listeners) + {listener}
    {
      listeners := listeners + {listener};
    }

    /** `removeListener`. */
    method RemoveListener(listener: L)
      modifies this`listeners
      ensures listeners == old(listeners) - {listener}
    {
      listeners := listeners - {listener};
    }

    /** `setMaxSizeForPersistence`: any value is taken as it is; the count is untouched. */
    method SetMaxSizeForPersistence(size: int32)
      requires Valid()
      modifies this`maxSize
      ensures Valid()
      ensures maxSize == size && responseCount == old(responseCount)
    {
      maxSize := size;
    }

    /** `getAverageNetworkSpeed`: the average as of the last fold. */
    method GetAverageNetworkSpeed() returns (speed: real)
      ensures speed == currentAvgSpeed
    {
      speed := currentAvgSpeed;
    }

    /**
     * `onResponseReceived`. The count goes up by one; when it reaches the
     * threshold the collector's average over the samples recorded so far is
     * blended in, the new average is stored under the key of the network in
     * `env`, and the count is reset. The sample of this response is recorded
     * afterwards, so it belongs to the next batch.
     */
    method OnResponseReceived(stats: S, env: Environment)
      requires Valid()
      modifies this`responseCount, this`currentAvgSpeed, this`store, this`samples, this`folds
      ensures Valid()
      ensures Tick(responseCount as int, folds == old(folds) + 1)
              == CountStep(old(responseCount) as int, maxSize as int)
      ensures maxSize >= 1 ==> 0 <= responseCount < maxSize
      ensures old(responseCount) as int + 1 >= maxSize as int ==>
                && responseCount == 0
                && folds == old(folds) + 1
                && currentAvgSpeed == (old(currentAvgSpeed) + collectorAverage(old(samples))) / 2.0
                && store == old(store)[CurrentNetworkKey(env, hash) := currentAvgSpeed]
      ensures old(responseCount) as int + 1 < maxSize as int ==>
                && responseCount as int == old(responseCount) as int + 1
                && folds == old(folds)
                && currentAvgSpeed == old(currentAvgSpeed)
                && store == old(store)
      ensures forall key | key in old(store) && key != CurrentNetworkKey(env, hash) ::
                key in store && store[key] == old(store)[key]
      ensures samples == old(samples) + [stats]
    {
      responseCount := responseCount + 1;
      if responseCount >= maxSize {
        var newAvgSpeed := collectorAverage(samples);
        currentAvgSpeed := (currentAvgSpeed + newAvgSpeed) / 2.0;
        var networkKey := CurrentNetworkKey(env, hash);
        store := store[networkKey := currentAvgSpeed];
        responseCount := 0;
        folds := folds + 1;
      }
      samples := samples + [stats];
    }

    /** `onHttpExchangeError`: only listeners hear of it; no state of the handler changes. */
    method OnHttpExchangeError<E>(stats: S, error: E)
      ensures unchanged(this)
    {
    }

    /** `onResponseInputStreamError`: only listeners hear of it; no state of the handler changes. */
    method OnResponseInputStreamError<E>(stats: S, error: E)
      ensures unchanged(this)
    {
    }
  }
}
