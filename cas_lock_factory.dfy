/**
 * CASLockFactoryBuilder: the fluent builder of the CAS lock factory, with a
 * default keyspace and cache expiry, and build() refusing a missing
 * connection provider or host states.
 */
module CasLockFactory {
  import opened Common

  const DEFAULT_KEYSPACE_NAME: string := "ecchronos"
  const DEFAULT_EXPIRY_TIME_IN_SECONDS: Long := 30

  /** The collaborators the builder is given, as identity tokens. */
  datatype NativeConnectionProvider = NativeConnectionProvider(id: nat)
  datatype HostStates = HostStates(id: nat)

  /**
   * The configuration a CASLockFactory is created from: what build() hands
   * over.  The factory itself (its CAS statements, leases and caches) is not
   * part of this model.
   */
  datatype CASLockFactory = CASLockFactory(
    nativeConnectionProvider: NativeConnectionProvider,
    hostStates: HostStates,
    keyspaceName: string,
    cacheExpiryTimeInSeconds: Long)

  datatype IllegalArgumentException = IllegalArgumentException(message: string)

  class CASLockFactoryBuilder {
    var nativeConnectionProvider: Option<NativeConnectionProvider>
    var hostStates: Option<HostStates>
    var keyspaceName: string
    var cacheExpiryTimeInSeconds: Long

    /** A fresh builder: no provider, no host states, the default keyspace and expiry. */
    constructor ()
      ensures GetNativeConnectionProvider() == None && GetHostStates() == None
      ensures GetKeyspaceName() == "ecchronos" && GetCacheExpiryTimeInSecond() == 30
    {
      nativeConnectionProvider, hostStates := None, None;
      keyspaceName, cacheExpiryTimeInSeconds := DEFAULT_KEYSPACE_NAME, DEFAULT_EXPIRY_TIME_IN_SECONDS;
    }

    function GetNativeConnectionProvider(): Option<NativeConnectionProvider>
      reads this
    {
      nativeConnectionProvider
    }

    function GetHostStates(): Option<HostStates>
      reads this
    {
      hostStates
    }

    function GetKeyspaceName(): string
      reads this
    {
      keyspaceName
    }

    function GetCacheExpiryTimeInSecond(): Long
      reads this
    {
      cacheExpiryTimeInSeconds
    }

    /** withNativeConnectionProvider: sets that field only (null allowed) and returns this builder. */
    method WithNativeConnectionProvider(provider: Option<NativeConnectionProvider>) returns (b: CASLockFactoryBuilder)
      modifies this
      ensures b == this
      ensures nativeConnectionProvider == provider
      ensures hostStates == old(hostStates) && keyspaceName == old(keyspaceName)
      ensures cacheExpiryTimeInSeconds == old(cacheExpiryTimeInSeconds)
    {
      nativeConnectionProvider := provider;
      b := this;
    }

    /** withHostStates: sets that field only (null allowed) and returns this builder. */
    method WithHostStates(states: Option<HostStates>) returns (b: CASLockFactoryBuilder)
      modifies this
      ensures b == this
      ensures hostStates == states
      ensures nativeConnectionProvider == old(nativeConnectionProvider) && keyspaceName == old(keyspaceName)
      ensures cacheExpiryTimeInSeconds == old(cacheExpiryTimeInSeconds)
    {
      hostStates := states;
      b := this;
    }

    /** withKeyspaceName: sets that field only and returns this builder. */
    method WithKeyspaceName(name: string) returns (b: CASLockFactoryBuilder)
      modifies this
      ensures b == this
      ensures keyspaceName == name
      ensures nativeConnectionProvider == old(nativeConnectionProvider) && hostStates == old(hostStates)
      ensures cacheExpiryTimeInSeconds == old(cacheExpiryTimeInSeconds)
    {
      keyspaceName := name;
      b := this;
    }

    /** withCacheExpiryInSeconds: sets that field only, any value, and returns this builder. */
    method WithCacheExpiryInSeconds(seconds: Long) returns (b: CASLockFactoryBuilder)
      modifies this
      ensures b == this
      ensures cacheExpiryTimeInSeconds == seconds
      ensures nativeConnectionProvider == old(nativeConnectionProvider) && hostStates == old(hostStates)
      ensures keyspaceName == old(keyspaceName)
    {
      cacheExpiryTimeInSeconds := seconds;
      b := this;
    }

    /**
     * build(): the provider is checked first, then the host states; the
     * keyspace name and the expiry are handed over unchecked.
     */
    method Build() returns (r: Result<CASLockFactory, IllegalArgumentException>)
      ensures nativeConnectionProvider.None? ==>
        r == Err(IllegalArgumentException("Native connection provider cannot be null"))
      ensures nativeConnectionProvider.Some? && hostStates.None? ==>
        r == Err(IllegalArgumentException("Host states cannot be null"))
      ensures r.Ok? <==> nativeConnectionProvider.Some? && hostStates.Some?
      ensures r.Ok? ==> r.value == CASLockFactory(nativeConnectionProvider.value, hostStates.value,
        keyspaceName, cacheExpiryTimeInSeconds)
    {
      if nativeConnectionProvider.None? {
        return Err(IllegalArgumentException("Native connection provider cannot be null"));
      }
      if hostStates.None? {
        return Err(IllegalArgumentException("Host states cannot be null"));
      }
      r := Ok(CASLockFactory(nativeConnectionProvider.value, hostStates.value, keyspaceName, cacheExpiryTimeInSeconds));
    }
  }

  /** A builder given only its two collaborators builds a factory on the default keyspace and expiry. */
  method BuildWithDefaults(provider: NativeConnectionProvider, states: HostStates)
    returns (r: Result<CASLockFactory, IllegalArgumentException>)
    ensures r == Ok(CASLockFactory(provider, states, "ecchronos", 30))
  {
    var builder := new CASLockFactoryBuilder();
    var b := builder.WithNativeConnectionProvider(Some(provider));
    b := b.WithHostStates(Some(states));
    r := b.Build();
  }

  /** With neither collaborator set, the provider's error is the one reported. */
  method BuildFreshBuilder() returns (r: Result<CASLockFactory, IllegalArgumentException>)
    ensures r == Err(IllegalArgumentException("Native connection provider cannot be null"))
  {
    var builder := new CASLockFactoryBuilder();
    r := builder.Build();
  }

  /**
   * The last value set wins, and build() passes any keyspace name and any
   * expiry through, a negative one included.
   */
  method BuildPassesSettingsThrough(provider: NativeConnectionProvider, states: HostStates,
                                    name: string, seconds: Long)
    returns (r: Result<CASLockFactory, IllegalArgumentException>)
    ensures r == Ok(CASLockFactory(provider, states, name, seconds))
  {
    var builder := new CASLockFactoryBuilder();
    var b := builder.WithCacheExpiryInSeconds(-1);
    b := b.WithKeyspaceName(name);
    b := b.WithCacheExpiryInSeconds(seconds);
    b := b.WithHostStates(Some(states));
    b := b.WithNativeConnectionProvider(Some(provider));
    r := b.Build();
  }
}
