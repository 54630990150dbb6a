/**
 * The tracing entry points the debugger calls on function calls and returns.
 * Each checks that a signature factory exists and the file is in scope, builds
 * the frame's signature, and writes a message unless the matching cache
 * manager has seen the same signature before. Cache managers are modelled as
 * the set of keys they hold (absent manager: `None`), the writer's queue as
 * the sequence of commands written so far.
 */
module Tracing {
  import opened Wrappers
  import opened Text
  import opened Signatures
  import opened Factory
  import opened Messages

  /** What a return-signature cache manager remembers: the signature and the returned value's type name. */
  datatype ReturnKey = ReturnKey(signature: SignatureData, returnInfo: string)

  /**
   * The runtime services the tracing code consults: `os.path.normcase`,
   * `pydevd_vars.makeValidXmlValue`, `trace.modname`, the referrer graph, and
   * the call cache manager's `is_first_call` on its current contents.
   */
  datatype Host = Host(
    normcase: string -> string,
    escape: string -> string,
    modname: string -> string,
    gc: Referrers,
    isFirstCall: (set<SignatureData>, SignatureData) -> bool)

  // ---- the repetition filter ---------------------------------------------------

  /** A cache manager after seeing one key, and whether the key's message is written. */
  datatype Step<K> = Step(cache: Option<set<K>>, emit: bool)

  /**
   * Without a cache manager a message is always written. With one, a key it
   * already holds is a repetition and writes nothing; a new key is added, then
   * written.
   */
  function Filter<K(==)>(cache: Option<set<K>>, k: K): (r: Step<K>)
    ensures r.emit <==> cache.None? || k !in cache.value
    ensures cache.None? <==> r.cache.None?
    ensures cache.Some? ==> r.cache.value == cache.value + {k}
  {
    match cache
    case None => Step(None, true)
    case Some(seen) =>
      if k in seen then Step(cache, false) else Step(Some(seen + {k}), true)
  }

  /** The keys of a series, as a set. */
  function Elems<K>(ks: seq<K>): set<K> {
    set i | 0 <= i < |ks| :: ks[i]
  }

  predicate NoDuplicates<K(==)>(ks: seq<K>) {
    forall i, j :: 0 <= i < j < |ks| ==> ks[i] != ks[j]
  }

  /** A series of keys through the filter: the final cache, and the keys whose messages were written, in order. */
  function Run<K(==)>(cache: Option<set<K>>, ks: seq<K>): (Option<set<K>>, seq<K>)
    decreases |ks|
  {
    if |ks| == 0 then (cache, [])
    else
      var step := Filter(cache, ks[0]);
      var (last, out) := Run(step.cache, ks[1..]);
      (last, if step.emit then [ks[0]] + out else out)
  }

  /** Without a cache manager every key is written, in order. */
  lemma {:induction false} RunWithoutCache<K>(ks: seq<K>)
    ensures Run(None, ks) == (None, ks)
    decreases |ks|
  {
    if |ks| > 0 {
      RunWithoutCache(ks[1..]);
      assert [ks[0]] + ks[1..] == ks;
    }
  }

  /**
   * With a cache manager, the keys written are exactly those of the series
   * the cache did not hold at the start, each written once, and the cache
   * ends up holding every key seen.
   */
  lemma {:induction false} RunWithCache<K>(seen: set<K>, ks: seq<K>)
    ensures Run(Some(seen), ks).0 == Some(seen + Elems(ks))
    ensures forall x :: x in Run(Some(seen), ks).1 <==> x in Elems(ks) && x !in seen
    ensures NoDuplicates(Run(Some(seen), ks).1)
    decreases |ks|
  {
    if |ks| > 0 {
      var k := ks[0];
      var next := seen + {k};
      RunWithCache(next, ks[1..]);
      assert Elems(ks) == {k} + Elems(ks[1..]) by {
        forall x | x in Elems(ks) ensures x in {k} + Elems(ks[1..]) {
          var i :| 0 <= i < |ks| && ks[i] == x;
          if i > 0 {
            assert ks[1..][i - 1] == x;
          }
        }
        forall x | x in Elems(ks[1..]) ensures x in Elems(ks) {
          var i :| 0 <= i < |ks[1..]| && ks[1..][i] == x;
          assert ks[i + 1] == x;
        }
      }
      assert seen + Elems(ks) == next + Elems(ks[1..]);
      assert Filter(Some(seen), k).cache == Some(next);
      assert Run(Some(seen), ks).0 == Run(Some(next), ks[1..]).0;
      var out := Run(Some(next), ks[1..]).1;
      if k in seen {
        assert next == seen;
      } else {
        assert k !in out;
        var whole := [k] + out;
        forall i, j | 0 <= i < j < |whole| ensures whole[i] != whole[j] {
          if i == 0 {
            assert whole[j] == out[j - 1];
          } else {
            assert whole[i] == out[i - 1] && whole[j] == out[j - 1];
          }
        }
      }
    } else {
      assert Elems(ks) == {};
      assert seen + Elems(ks) == seen;
    }
  }

  // ---- the debugger ------------------------------------------------------------

  /** The parts of the debugger object the tracing functions use. */
  class Debugger {
    var factory: SignatureFactory?
    var callCache: Option<set<SignatureData>>
    var returnCache: Option<set<ReturnKey>>
    var hierarchyManager: bool
    var written: seq<NetCommand>

    constructor (factory: SignatureFactory?, callCache: Option<set<SignatureData>>,
                 returnCache: Option<set<ReturnKey>>, hierarchyManager: bool)
      ensures this.factory == factory && this.callCache == callCache
      ensures this.returnCache == returnCache && this.hierarchyManager == hierarchyManager
      ensures written == []
    {
      this.factory := factory;
      this.callCache := callCache;
      this.returnCache := returnCache;
      this.hierarchyManager := hierarchyManager;
      this.written := [];
    }

    /** The factory exists and `filename` is in its scope. */
    predicate Traced(filename: string, host: Host)
      reads this, factory
    {
      factory != null && InScope(factory.projectRoots, host.normcase, filename)
    }

    /**
     * `sendSignatureCallTrace`: outside the scope nothing changes. Inside, the
     * frame's signature is built (filling the class-name cache) and passed
     * through the call cache manager, and its message is written when
     * `Filter` admits it.
     */
    method SendSignatureCallTrace(frame: Frame, filename: string, host: Host)
      modifies this`callCache, this`written, factory
      ensures factory != null ==> factory.projectRoots == old(factory.projectRoots)
      ensures !old(Traced(filename, host)) ==>
        callCache == old(callCache) && written == old(written) &&
        (factory != null ==> factory.callerCache == old(factory.callerCache))
      ensures old(Traced(filename, host)) ==>
        factory.callerCache == Remember(old(factory.callerCache), frame.code, host.gc) &&
        var d := SignatureOf(frame, factory.callerCache);
        var step := Filter(old(callCache), d);
        callCache == step.cache &&
        written == old(written) + (if step.emit then [SignatureCommand(d, host.escape)] else [])
    {
      if factory != null {
        var inScope := factory.IsInScope(filename, host.normcase);
        if inScope {
          var signature := factory.CreateSignature(frame, host.gc, host.modname);
          WriteCallSignature(signature, host.escape);
        }
      }
    }

    /** The call cache manager's repetition test and the write, for a signature already built. */
    method WriteCallSignature(signature: Signature, escape: string -> string)
      modifies this`callCache, this`written
      ensures var step := Filter(old(callCache), signature.Data());
        callCache == step.cache &&
        written == old(written) + (if step.emit then [SignatureCommand(signature.Data(), escape)] else [])
    {
      var data := signature.Data();
      match callCache {
        case Some(seen) =>
          if data !in seen {
            callCache := Some(seen + {data});
            var cmd := CreateSignatureMessage(signature, escape);
            written := written + [cmd];
          }
        case None =>
          var cmd := CreateSignatureMessage(signature, escape);
          written := written + [cmd];
      }
    }

    /**
     * `isFirstCall`: the call cache manager's answer for the frame's signature
     * when there is a return cache manager, a factory with the file in scope,
     * and a call cache manager; `false` otherwise, without touching anything.
     */
    method IsFirstCall(frame: Frame, filename: string, host: Host) returns (r: bool)
      modifies factory
      ensures factory != null ==> factory.projectRoots == old(factory.projectRoots)
      ensures r ==> old(returnCache).Some? && old(Traced(filename, host)) && old(callCache).Some?
      ensures old(returnCache).Some? && old(Traced(filename, host)) && old(callCache).Some? ==>
        factory.callerCache == Remember(old(factory.callerCache), frame.code, host.gc) &&
        r == host.isFirstCall(old(callCache).value, SignatureOf(frame, factory.callerCache))
      ensures !(old(returnCache).Some? && old(Traced(filename, host)) && old(callCache).Some?) ==>
        factory != null ==> factory.callerCache == old(factory.callerCache)
    {
      if returnCache.Some? {
        if factory != null {
          var inScope := factory.IsInScope(filename, host.normcase);
          if inScope && callCache.Some? {
            var signature := factory.CreateSignature(frame, host.gc, host.modname);
            return host.isFirstCall(callCache.value, signature.Data());
          }
        }
      }
      return false;
    }

    /**
     * `sendSignatureReturnTrace`: with a factory, the file in scope and a
     * return cache manager, the signature and the returned value's type
     * `returnInfo` are written unless that pair was seen before; otherwise
     * nothing changes.
     */
    method SendSignatureReturnTrace(frame: Frame, filename: string, returnInfo: string, host: Host)
      modifies this`returnCache, this`written, factory
      ensures factory != null ==> factory.projectRoots == old(factory.projectRoots)
      ensures !(old(Traced(filename, host)) && old(returnCache).Some?) ==>
        returnCache == old(returnCache) && written == old(written) &&
        (factory != null ==> factory.callerCache == old(factory.callerCache))
      ensures old(Traced(filename, host)) && old(returnCache).Some? ==>
        factory.callerCache == Remember(old(factory.callerCache), frame.code, host.gc) &&
        var d := SignatureOf(frame, factory.callerCache);
        var step := Filter(old(returnCache), ReturnKey(d, returnInfo));
        returnCache == step.cache &&
        written == old(written) + (if step.emit then [ReturnCommand(d, returnInfo, host.escape)] else [])
    {
      if factory != null {
        var inScope := factory.IsInScope(filename, host.normcase);
        if inScope && returnCache.Some? {
          var signature := factory.CreateSignature(frame, host.gc, host.modname);
          WriteReturnSignature(signature, returnInfo, host.escape);
        }
      }
    }

    /** The return cache manager's repetition test and the write, for a signature already built; there is a manager. */
    method WriteReturnSignature(signature: Signature, returnInfo: string, escape: string -> string)
      requires returnCache.Some?
      modifies this`returnCache, this`written
      ensures var step := Filter(old(returnCache), ReturnKey(signature.Data(), returnInfo));
        returnCache == step.cache &&
        written == old(written) + (if step.emit then [ReturnCommand(signature.Data(), returnInfo, escape)] else [])
    {
      var key := ReturnKey(signature.Data(), returnInfo);
      if key !in returnCache.value {
        returnCache := Some(returnCache.value + {key});
        var cmd := CreateReturnSignatureMessage(signature, returnInfo, escape);
        written := written + [cmd];
      }
    }

    /**
     * `sendHierarchyCallTrace`: with a factory, the file in scope and a
     * hierarchy cache manager, the record `callData` that the manager hands
     * back for the frame is written, if there is one; nothing changes otherwise.
     */
    method SendHierarchyCallTrace(filename: string, callData: Option<HierarchyCallData>, host: Host)
      modifies this`written
      ensures written == old(written) +
        if Traced(filename, host) && hierarchyManager && callData.Some?
        then [HierarchyCommand(callData.value, host.escape)] else []
    {
      if factory != null {
        var inScope := factory.IsInScope(filename, host.normcase);
        if inScope && hierarchyManager {
          if callData.Some? {
            var cmd := CreateHierarchyCallMessage(callData.value, host.escape);
            written := written + [cmd];
          }
        }
      }
    }
  }
}
