/**
 * The call-recording configuration fake of the v2 actor: every method logs its arguments,
 * getters answer from a stub, a per-call override or a default (in that order), and every
 * call is also recorded under the method's name in one shared invocation map.
 */
module V2ActionFakes {
  import opened Wrappers

  /** The two results of Verbose: the verbose flag and the log file paths. */
  datatype VerboseResult = VerboseResult(result1: bool, result2: seq<string>)

  /** The arguments of one SetTokenInformation call. */
  datatype TokenInformationArgs = TokenInformationArgs(arg1: string, arg2: string, arg3: string)

  /** The names the four methods are recorded under. */
  const AccessTokenKey: string := "AccessToken"
  const SetAccessTokenKey: string := "SetAccessToken"
  const SetTokenInformationKey: string := "SetTokenInformation"
  const VerboseKey: string := "Verbose"

  /** Method name to the argument lists of its calls, oldest first. */
  type Invocations = map<string, seq<seq<string>>>

  /** The argument lists recorded under `key` so far (none for a key never used). */
  function CallsOf(inv: Invocations, key: string): seq<seq<string>>
  {
    if key in inv then inv[key] else []
  }

  /**
   * The record after one more call of `key` with `args`: the key is there from now on, its
   * list gains `args` at the end, and every other key keeps its list.
   */
  function Recorded(inv: Invocations, key: string, args: seq<string>): (r: Invocations)
    ensures r.Keys == inv.Keys + {key}
    ensures CallsOf(r, key) == CallsOf(inv, key) + [args]
    ensures forall k :: k != key ==> CallsOf(r, k) == CallsOf(inv, k)
  {
    inv[key := CallsOf(inv, key) + [args]]
  }

  /** Two calls under one key are kept in the order they were made. */
  lemma RecordedInOrder(inv: Invocations, key: string, first: seq<string>, second: seq<string>)
    ensures CallsOf(Recorded(Recorded(inv, key, first), key, second), key) == CallsOf(inv, key) + [first, second]
  {
  }

  /** Calls under different keys do not interfere: recording them in either order gives the same map. */
  lemma RecordedCommutes(inv: Invocations, key1: string, args1: seq<string>, key2: string, args2: seq<string>)
    requires key1 != key2
    ensures Recorded(Recorded(inv, key1, args1), key2, args2) == Recorded(Recorded(inv, key2, args2), key1, args1)
  {
    var a := Recorded(Recorded(inv, key1, args1), key2, args2);
    var b := Recorded(Recorded(inv, key2, args2), key1, args1);
    forall k | k in a.Keys ensures a[k] == b[k] {
      assert CallsOf(a, k) == CallsOf(b, k);
    }
  }

  /**
   * What a getter returns on call number `n` (counting from 0): the stub's result when a
   * stub is installed, otherwise the override for `n` when there is one, otherwise the default.
   */
  function Answer<T>(stub: Option<T>, returnsOnCall: map<int, T>, defaultResult: T, n: nat): (r: T)
    ensures r == defaultResult || (stub.Some? && r == stub.value) || (n in returnsOnCall && r == returnsOnCall[n])
  {
    if stub.Some? then stub.value
    else if n in returnsOnCall then returnsOnCall[n]
    else defaultResult
  }

  /** An installed stub wins over every override and the default, on every call. */
  lemma StubWins<T>(stub: T, returnsOnCall: map<int, T>, defaultResult: T, n: nat)
    ensures Answer(Some(stub), returnsOnCall, defaultResult, n) == stub
  {
  }

  /**
   * Setting the override for call `i` changes the answer of call `i` only: every other
   * call still gets what it got before, the default included.
   */
  lemma OverrideOnlyAtIndex<T>(returnsOnCall: map<int, T>, defaultResult: T, i: int, v: T, n: nat)
    ensures Answer(None, returnsOnCall[i := v], defaultResult, n) == if n == i then v else Answer(None, returnsOnCall, defaultResult, n)
    ensures n != i && n !in returnsOnCall ==> Answer(None, returnsOnCall[i := v], defaultResult, n) == defaultResult
  {
  }

  /** Without a stub, the answer is an override exactly when one is set for that call. */
  lemma AnswerWithoutStub<T>(returnsOnCall: map<int, T>, defaultResult: T, n: nat)
    ensures n in returnsOnCall ==> Answer(None, returnsOnCall, defaultResult, n) == returnsOnCall[n]
    ensures n !in returnsOnCall ==> Answer(None, returnsOnCall, defaultResult, n) == defaultResult
  {
  }

  class FakeConfig {
    var AccessTokenStub: Option<string>
    var accessTokenArgsForCall: seq<()>
    var accessTokenReturns: string
    var accessTokenReturnsOnCall: map<int, string>
    var setAccessTokenArgsForCall: seq<string>
    var setTokenInformationArgsForCall: seq<TokenInformationArgs>
    var VerboseStub: Option<VerboseResult>
    var verboseArgsForCall: seq<()>
    var verboseReturns: VerboseResult
    var verboseReturnsOnCall: map<int, VerboseResult>
    var invocations: Invocations

    /** A fake as Go zero-initialises it: no stubs, no calls, zero defaults, no overrides. */
    constructor()
      ensures AccessTokenStub == None && accessTokenArgsForCall == [] && accessTokenReturns == ""
      ensures accessTokenReturnsOnCall == map[]
      ensures setAccessTokenArgsForCall == [] && setTokenInformationArgsForCall == []
      ensures VerboseStub == None && verboseArgsForCall == [] && verboseReturns == VerboseResult(false, [])
      ensures verboseReturnsOnCall == map[]
      ensures invocations == map[]
      ensures Valid()
    {
      AccessTokenStub := None;
      accessTokenArgsForCall := [];
      accessTokenReturns := "";
      accessTokenReturnsOnCall := map[];
      setAccessTokenArgsForCall := [];
      setTokenInformationArgsForCall := [];
      VerboseStub := None;
      verboseArgsForCall := [];
      verboseReturns := VerboseResult(false, []);
      verboseReturnsOnCall := map[];
      invocations := map[];
    }

    /**
     * The per-method logs agree with the shared invocation record: each method has as many
     * entries under its name as it has logged calls, every entry of a getter is the empty
     * argument list, and a setter's entry `i` holds the arguments of its call `i` (one for
     * SetAccessToken, three in parameter order for SetTokenInformation).
     */
    ghost predicate Valid()
      reads this`accessTokenArgsForCall, this`setAccessTokenArgsForCall, this`setTokenInformationArgsForCall,
        this`verboseArgsForCall, this`invocations
    {
      && |accessTokenArgsForCall| == |CallsOf(invocations, AccessTokenKey)|
      && (forall call :: call in CallsOf(invocations, AccessTokenKey) ==> call == [])
      && |setAccessTokenArgsForCall| == |CallsOf(invocations, SetAccessTokenKey)|
      && (forall i :: 0 <= i < |setAccessTokenArgsForCall| ==>
            CallsOf(invocations, SetAccessTokenKey)[i] == [setAccessTokenArgsForCall[i]])
      && |setTokenInformationArgsForCall| == |CallsOf(invocations, SetTokenInformationKey)|
      && (forall i :: 0 <= i < |setTokenInformationArgsForCall| ==>
            CallsOf(invocations, SetTokenInformationKey)[i] ==
              [setTokenInformationArgsForCall[i].arg1, setTokenInformationArgsForCall[i].arg2, setTokenInformationArgsForCall[i].arg3])
      && |verboseArgsForCall| == |CallsOf(invocations, VerboseKey)|
      && (forall call :: call in CallsOf(invocations, VerboseKey) ==> call == [])
    }

    /** What the next AccessToken call will return. */
    ghost function AccessTokenNext(): string
      reads this
    {
      Answer(AccessTokenStub, accessTokenReturnsOnCall, accessTokenReturns, |accessTokenArgsForCall|)
    }

    /** What the next Verbose call will return. */
    ghost function VerboseNext(): VerboseResult
      reads this
    {
      Answer(VerboseStub, verboseReturnsOnCall, verboseReturns, |verboseArgsForCall|)
    }

    // ------------------------------------------------------------ AccessToken

    /**
     * Logs the call and records it, then answers stub first, override for this call's
     * index next, default last. The override is looked up before the call is logged.
     */
    method AccessToken() returns (result1: string)
      requires Valid()
      modifies this`accessTokenArgsForCall, this`invocations
      ensures Valid()
      ensures AccessTokenCallCount() == old(AccessTokenCallCount()) + 1
      ensures accessTokenArgsForCall == old(accessTokenArgsForCall) + [()]
      ensures invocations == Recorded(old(invocations), AccessTokenKey, [])
      ensures result1 == old(AccessTokenNext())
      ensures SetAccessTokenCallCount() == old(SetAccessTokenCallCount())
      ensures SetTokenInformationCallCount() == old(SetTokenInformationCallCount())
      ensures VerboseCallCount() == old(VerboseCallCount())
    {
      var n := |accessTokenArgsForCall|;
      var specificReturn := n in accessTokenReturnsOnCall;
      var ret := if specificReturn then accessTokenReturnsOnCall[n] else "";
      accessTokenArgsForCall := accessTokenArgsForCall + [()];
      RecordInvocation(AccessTokenKey, []);
      if AccessTokenStub.Some? {
        return AccessTokenStub.value;
      }
      if specificReturn {
        return ret;
      }
      return accessTokenReturns;
    }

    /** The number of AccessToken calls so far. */
    function AccessTokenCallCount(): (n: nat)
      reads this`accessTokenArgsForCall, this`setAccessTokenArgsForCall, this`setTokenInformationArgsForCall,
        this`verboseArgsForCall, this`invocations
      requires Valid()
      ensures n == |CallsOf(invocations, AccessTokenKey)|
    {
      |accessTokenArgsForCall|
    }

    /** Installs a stub (or removes it, given None); the logs and answers stay. */
    method AccessTokenCalls(stub: Option<string>)
      modifies this`AccessTokenStub
      ensures AccessTokenStub == stub
    {
      AccessTokenStub := stub;
    }

    /** Removes the stub and sets the default answer. */
    method AccessTokenReturns(result1: string)
      modifies this`AccessTokenStub, this`accessTokenReturns
      ensures AccessTokenStub == None && accessTokenReturns == result1
    {
      AccessTokenStub := None;
      accessTokenReturns := result1;
    }

    /** Removes the stub and sets the answer of call number `i` only. */
    method AccessTokenReturnsOnCall(i: int, result1: string)
      modifies this`AccessTokenStub, this`accessTokenReturnsOnCall
      ensures AccessTokenStub == None
      ensures accessTokenReturnsOnCall == old(accessTokenReturnsOnCall)[i := result1]
    {
      AccessTokenStub := None;
      accessTokenReturnsOnCall := accessTokenReturnsOnCall[i := result1];
    }

    // ------------------------------------------------------------ SetAccessToken

    /** Logs and records the call; no getter's next answer changes. */
    method SetAccessToken(arg1: string)
      requires Valid()
      modifies this`setAccessTokenArgsForCall, this`invocations
      ensures Valid()
      ensures SetAccessTokenCallCount() == old(SetAccessTokenCallCount()) + 1
      ensures SetAccessTokenArgsForCall(old(SetAccessTokenCallCount())) == arg1
      ensures setAccessTokenArgsForCall == old(setAccessTokenArgsForCall) + [arg1]
      ensures invocations == Recorded(old(invocations), SetAccessTokenKey, [arg1])
      ensures AccessTokenNext() == old(AccessTokenNext()) && VerboseNext() == old(VerboseNext())
      ensures AccessTokenCallCount() == old(AccessTokenCallCount())
      ensures SetTokenInformationCallCount() == old(SetTokenInformationCallCount())
      ensures VerboseCallCount() == old(VerboseCallCount())
    {
      setAccessTokenArgsForCall := setAccessTokenArgsForCall + [arg1];
      RecordInvocation(SetAccessTokenKey, [arg1]);
    }

    /** The number of SetAccessToken calls so far. */
    function SetAccessTokenCallCount(): (n: nat)
      reads this`accessTokenArgsForCall, this`setAccessTokenArgsForCall, this`setTokenInformationArgsForCall,
        this`verboseArgsForCall, this`invocations
      requires Valid()
      ensures n == |CallsOf(invocations, SetAccessTokenKey)|
    {
      |setAccessTokenArgsForCall|
    }

    /** The argument of SetAccessToken call number `i`; an index with no call is out of range. */
    function SetAccessTokenArgsForCall(i: int): (arg1: string)
      reads this`accessTokenArgsForCall, this`setAccessTokenArgsForCall, this`setTokenInformationArgsForCall,
        this`verboseArgsForCall, this`invocations
      requires Valid()
      requires 0 <= i < SetAccessTokenCallCount()
      ensures [arg1] == CallsOf(invocations, SetAccessTokenKey)[i]
    {
      setAccessTokenArgsForCall[i]
    }

    // ------------------------------------------------------------ SetTokenInformation

    /** Logs and records the call with its three arguments; no getter's next answer changes. */
    method SetTokenInformation(arg1: string, arg2: string, arg3: string)
      requires Valid()
      modifies this`setTokenInformationArgsForCall, this`invocations
      ensures Valid()
      ensures SetTokenInformationCallCount() == old(SetTokenInformationCallCount()) + 1
      ensures SetTokenInformationArgsForCall(old(SetTokenInformationCallCount())) == (arg1, arg2, arg3)
      ensures setTokenInformationArgsForCall == old(setTokenInformationArgsForCall) + [TokenInformationArgs(arg1, arg2, arg3)]
      ensures invocations == Recorded(old(invocations), SetTokenInformationKey, [arg1, arg2, arg3])
      ensures AccessTokenNext() == old(AccessTokenNext()) && VerboseNext() == old(VerboseNext())
      ensures AccessTokenCallCount() == old(AccessTokenCallCount())
      ensures SetAccessTokenCallCount() == old(SetAccessTokenCallCount())
      ensures VerboseCallCount() == old(VerboseCallCount())
    {
      setTokenInformationArgsForCall := setTokenInformationArgsForCall + [TokenInformationArgs(arg1, arg2, arg3)];
      RecordInvocation(SetTokenInformationKey, [arg1, arg2, arg3]);
    }

    /** The number of SetTokenInformation calls so far. */
    function SetTokenInformationCallCount(): (n: nat)
      reads this`accessTokenArgsForCall, this`setAccessTokenArgsForCall, this`setTokenInformationArgsForCall,
        this`verboseArgsForCall, this`invocations
      requires Valid()
      ensures n == |CallsOf(invocations, SetTokenInformationKey)|
    {
      |setTokenInformationArgsForCall|
    }

    /** The three arguments of SetTokenInformation call number `i`, in parameter order. */
    function SetTokenInformationArgsForCall(i: int): (args: (string, string, string))
      reads this`accessTokenArgsForCall, this`setAccessTokenArgsForCall, this`setTokenInformationArgsForCall,
        this`verboseArgsForCall, this`invocations
      requires Valid()
      requires 0 <= i < SetTokenInformationCallCount()
      ensures [args.0, args.1, args.2] == CallsOf(invocations, SetTokenInformationKey)[i]
    {
      var call := setTokenInformationArgsForCall[i];
      (call.arg1, call.arg2, call.arg3)
    }

    // ------------------------------------------------------------ Verbose

    /** Logs the call and records it, then answers stub first, override next, default last. */
    method Verbose() returns (result1: bool, result2: seq<string>)
      requires Valid()
      modifies this`verboseArgsForCall, this`invocations
      ensures Valid()
      ensures VerboseCallCount() == old(VerboseCallCount()) + 1
      ensures verboseArgsForCall == old(verboseArgsForCall) + [()]
      ensures invocations == Recorded(old(invocations), VerboseKey, [])
      ensures VerboseResult(result1, result2) == old(VerboseNext())
      ensures AccessTokenCallCount() == old(AccessTokenCallCount())
      ensures SetAccessTokenCallCount() == old(SetAccessTokenCallCount())
      ensures SetTokenInformationCallCount() == old(SetTokenInformationCallCount())
    {
      var n := |verboseArgsForCall|;
      var specificReturn := n in verboseReturnsOnCall;
      var ret := if specificReturn then verboseReturnsOnCall[n] else VerboseResult(false, []);
      verboseArgsForCall := verboseArgsForCall + [()];
      RecordInvocation(VerboseKey, []);
      if VerboseStub.Some? {
        return VerboseStub.value.result1, VerboseStub.value.result2;
      }
      if specificReturn {
        return ret.result1, ret.result2;
      }
      return verboseReturns.result1, verboseReturns.result2;
    }

    /** The number of Verbose calls so far. */
    function VerboseCallCount(): (n: nat)
      reads this`accessTokenArgsForCall, this`setAccessTokenArgsForCall, this`setTokenInformationArgsForCall,
        this`verboseArgsForCall, this`invocations
      requires Valid()
      ensures n == |CallsOf(invocations, VerboseKey)|
    {
      |verboseArgsForCall|
    }

    /** Installs a stub (or removes it, given None). */
    method VerboseCalls(stub: Option<VerboseResult>)
      modifies this`VerboseStub
      ensures VerboseStub == stub
    {
      VerboseStub := stub;
    }

    /** Removes the stub and sets the default answer. */
    method VerboseReturns(result1: bool, result2: seq<string>)
      modifies this`VerboseStub, this`verboseReturns
      ensures VerboseStub == None && verboseReturns == VerboseResult(result1, result2)
    {
      VerboseStub := None;
      verboseReturns := VerboseResult(result1, result2);
    }

    /** Removes the stub and sets the answer of call number `i` only. */
    method VerboseReturnsOnCall(i: int, result1: bool, result2: seq<string>)
      modifies this`VerboseStub, this`verboseReturnsOnCall
      ensures VerboseStub == None
      ensures verboseReturnsOnCall == old(verboseReturnsOnCall)[i := VerboseResult(result1, result2)]
    {
      VerboseStub := None;
      verboseReturnsOnCall := verboseReturnsOnCall[i := VerboseResult(result1, result2)];
    }

    // ------------------------------------------------------------ Invocations

    /** A copy of the invocation record: the same keys, each with the same argument lists. */
    method Invocations() returns (copied: Invocations)
      ensures copied == invocations
    {
      copied := map[];
      var pending := invocations.Keys;
      while pending != {}
        invariant pending <= invocations.Keys
        invariant copied.Keys == invocations.Keys - pending
        invariant forall k :: k in copied ==> copied[k] == invocations[k]
        decreases |pending|
      {
        var key :| key in pending;
        copied := copied[key := invocations[key]];
        pending := pending - {key};
      }
    }

    /** Appends `args` to the list recorded under `key`, creating the key when it is new. */
    method RecordInvocation(key: string, args: seq<string>)
      modifies this`invocations
      ensures invocations == Recorded(old(invocations), key, args)
    {
      var calls := if key in invocations then invocations[key] else [];
      invocations := invocations[key := calls + [args]];
    }
  }

  /**
   * With default "a" and an override "b" for call 1, three calls answer "a", "b", "a", and
   * the count follows the calls.
   */
  method OverrideForSecondCall() returns (first: string, second: string, third: string, count: nat)
    ensures first == "a" && second == "b" && third == "a"
    ensures count == 3
  {
    var fake := new FakeConfig();
    fake.AccessTokenReturns("a");
    fake.AccessTokenReturnsOnCall(1, "b");
    first := fake.AccessToken();
    second := fake.AccessToken();
    third := fake.AccessToken();
    count := fake.AccessTokenCallCount();
  }

  /**
   * AccessToken and Verbose calls interleaved land under their own names in the shared
   * record, each list in call order, and each method counts only its own calls.
   */
  method RecordsPerMethod() returns (tokens: seq<seq<string>>, verbose: seq<seq<string>>, tokenCount: nat, verboseCount: nat)
    ensures tokens == [[], []] && verbose == [[]]
    ensures tokenCount == 2 && verboseCount == 1
  {
    var fake := new FakeConfig();
    var token := fake.AccessToken();
    var flag, paths := fake.Verbose();
    token := fake.AccessToken();
    tokenCount := fake.AccessTokenCallCount();
    verboseCount := fake.VerboseCallCount();
    var inv := fake.Invocations();
    tokens := CallsOf(inv, AccessTokenKey);
    verbose := CallsOf(inv, VerboseKey);
  }

  /** A stub wins over an override for the same call, and the call is still logged and recorded. */
  method StubBeatsOverride() returns (result: string, count: nat, recorded: seq<seq<string>>)
    ensures result == "stubbed" && count == 1 && recorded == [[]]
  {
    var fake := new FakeConfig();
    fake.AccessTokenReturnsOnCall(0, "override");
    fake.AccessTokenCalls(Some("stubbed"));
    result := fake.AccessToken();
    count := fake.AccessTokenCallCount();
    var inv := fake.Invocations();
    recorded := CallsOf(inv, AccessTokenKey);
  }

  /** Setter logs keep call order, and setters leave the getters' answers alone. */
  method SettersLogInOrder() returns (firstToken: string, secondToken: string, info: (string, string, string), token: string)
    ensures firstToken == "token-1" && secondToken == "token-2"
    ensures info == ("access", "refresh", "ssh-client")
    ensures token == "default"
  {
    var fake := new FakeConfig();
    fake.AccessTokenReturns("default");
    assert fake.Valid() && fake.AccessTokenNext() == "default";
    fake.SetAccessToken("token-1");
    assert fake.SetAccessTokenArgsForCall(0) == "token-1";
    fake.SetTokenInformation("access", "refresh", "ssh-client");
    assert fake.SetTokenInformationArgsForCall(0) == ("access", "refresh", "ssh-client");
    assert fake.SetAccessTokenArgsForCall(0) == "token-1";
    fake.SetAccessToken("token-2");
    assert fake.AccessTokenNext() == "default";
    firstToken := fake.SetAccessTokenArgsForCall(0);
    secondToken := fake.SetAccessTokenArgsForCall(1);
    info := fake.SetTokenInformationArgsForCall(0);
    token := fake.AccessToken();
  }
}
