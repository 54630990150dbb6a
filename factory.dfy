/**
 * `SignatureFactory`: decides which files are traced (a prefix test against
 * the project roots) and names the function a frame is running, qualifying it
 * with its class when the object graph says unambiguously which class that is.
 * The answer for each code object is remembered in `callerCache`.
 */
module Factory {
  import opened Wrappers
  import opened Text
  import opened Signatures

  /** A code object: `co_filename`, `co_name`, and an identity telling apart code objects with equal names. */
  datatype Code = Code(filename: string, coName: string, id: nat)

  /**
   * A frame, reduced to what the signature code takes from it: its code object
   * and, for each of the first `co_argcount` local variables, its name and the
   * class name of its value.
   */
  datatype Frame = Frame(code: Code, args: seq<Arg>)

  /**
   * The object graph as the referrer lookups see it, already filtered: the
   * functions referring to a code object, the dictionaries referring to a
   * function, and the `__name__` of each class referring to a dictionary.
   * Functions and dictionaries are known by an identity number.
   */
  datatype Referrers = Referrers(
    functionsOf: Code -> seq<nat>,
    dictsOf: nat -> seq<nat>,
    classesOf: nat -> seq<string>)

  /** The classes that may own function `f`: reached through its only dictionary, or through the second one for new-style classes. */
  function ClassCandidates(gc: Referrers, f: nat): seq<string> {
    var dicts := gc.dictsOf(f);
    if |dicts| == 1 then gc.classesOf(dicts[0])
    else if |dicts| > 1 then gc.classesOf(dicts[1])
    else []
  }

  /** The class a code object belongs to, found only when there is one function and then one class to choose. */
  function ResolveClass(gc: Referrers, code: Code): (r: Option<string>)
    ensures |gc.functionsOf(code)| != 1 ==> r == None
    ensures r.Some? ==> |ClassCandidates(gc, gc.functionsOf(code)[0])| == 1
    ensures r.Some? ==> r.value == ClassCandidates(gc, gc.functionsOf(code)[0])[0]
    ensures |gc.functionsOf(code)| == 1 && |ClassCandidates(gc, gc.functionsOf(code)[0])| == 1 ==> r.Some?
  {
    var funcs := gc.functionsOf(code);
    if |funcs| != 1 then None
    else
      var classes := ClassCandidates(gc, funcs[0]);
      if |classes| == 1 then Some(classes[0]) else None
  }

  /** `cls.name` when a class is known, the bare `co_name` otherwise. */
  function QualifiedName(cls: Option<string>, coName: string): (r: string)
    ensures |coName| <= |r| && r[|r| - |coName|..] == coName
    ensures cls.None? <==> |r| == |coName|
    ensures cls.Some? ==> r == cls.value + "." + coName
  {
    match cls
    case None => coName
    case Some(c) => c + "." + coName
  }

  /** The cache after looking `code` up: an existing entry is kept; a new one holds the resolved class. */
  function Remember(cache: map<Code, Option<string>>, code: Code, gc: Referrers): (r: map<Code, Option<string>>)
    ensures code in r && r.Keys == cache.Keys + {code}
    ensures forall k :: k in cache ==> r[k] == cache[k]
    ensures code !in cache ==> r[code] == ResolveClass(gc, code)
  {
    if code in cache then cache else cache[code := ResolveClass(gc, code)]
  }

  /** One call of `file_module_function_of`: the code object looked up, and the object graph at that moment. */
  datatype Lookup = Lookup(code: Code, gc: Referrers)

  function RememberAll(cache: map<Code, Option<string>>, lookups: seq<Lookup>): map<Code, Option<string>>
    decreases |lookups|
  {
    if |lookups| == 0 then cache
    else RememberAll(Remember(cache, lookups[0].code, lookups[0].gc), lookups[1..])
  }

  /**
   * Over any series of lookups, even with the object graph changing between
   * them, an entry once cached is never recomputed or changed, and the cache
   * holds exactly the code objects looked up so far.
   */
  lemma {:induction false} CacheEntriesAreStable(cache: map<Code, Option<string>>, lookups: seq<Lookup>)
    ensures var after := RememberAll(cache, lookups);
      (forall k :: k in cache ==> k in after && after[k] == cache[k]) &&
      (forall k :: k in after <==> k in cache || exists i :: 0 <= i < |lookups| && lookups[i].code == k)
    decreases |lookups|
  {
    if |lookups| > 0 {
      var next := Remember(cache, lookups[0].code, lookups[0].gc);
      CacheEntriesAreStable(next, lookups[1..]);
      var after := RememberAll(cache, lookups);
      forall k ensures k in after <==> k in cache || exists i :: 0 <= i < |lookups| && lookups[i].code == k {
        if exists i :: 0 <= i < |lookups[1..]| && lookups[1..][i].code == k {
          var i :| 0 <= i < |lookups[1..]| && lookups[1..][i].code == k;
          assert lookups[i + 1].code == k;
        }
        if exists i :: 0 <= i < |lookups| && lookups[i].code == k {
          var i :| 0 <= i < |lookups| && lookups[i].code == k;
          if i > 0 {
            assert lookups[1..][i - 1].code == k;
          }
        }
      }
    }
  }

  /** The scope test: some normalised root is a prefix of the normalised file name. */
  predicate InScope(roots: seq<string>, normcase: string -> string, filename: string) {
    exists k :: 0 <= k < |roots| && StartsWith(normcase(filename), normcase(roots[k]))
  }

  /** With `PYCHARM_PROJECT_ROOTS` unset the roots are `[""]`, and every file is in scope. */
  lemma UnsetRootsCoverEverything(pathsep: char, normcase: string -> string, filename: string)
    requires normcase("") == ""
    ensures Split("", pathsep) == [""]
    ensures InScope(Split("", pathsep), normcase, filename)
  {
    assert StartsWith(normcase(filename), normcase(Split("", pathsep)[0]));
  }

  /** Without roots nothing is in scope. */
  lemma NoRootsNoScope(normcase: string -> string, filename: string)
    ensures !InScope([], normcase, filename)
  {
  }

  /** The signature a frame yields once its code object is in the cache. */
  function SignatureOf(frame: Frame, cache: map<Code, Option<string>>): (d: SignatureData)
    requires frame.code in cache
    ensures d.file == frame.code.filename && d.args == frame.args
    ensures cache[frame.code].None? ==> d.name == frame.code.coName
    ensures cache[frame.code].Some? ==> d.name == cache[frame.code].value + "." + frame.code.coName
  {
    SignatureData(frame.code.filename, QualifiedName(cache[frame.code], frame.code.coName), frame.args)
  }

  class SignatureFactory {
    var callerCache: map<Code, Option<string>>
    var projectRoots: seq<string>

    /** `env` is the value of `PYCHARM_PROJECT_ROOTS`, if set; `pathsep` is `os.pathsep`. */
    constructor (env: Option<string>, pathsep: char)
      ensures callerCache == map[]
      ensures projectRoots == Split(env.GetOr(""), pathsep)
      ensures Join([pathsep], projectRoots) == env.GetOr("")
    {
      callerCache := map[];
      projectRoots := Split(env.GetOr(""), pathsep);
      JoinSplit(env.GetOr(""), pathsep);
    }

    /** `is_in_scope`: the loop returns at the first root that is a prefix of the file name. */
    method IsInScope(filename: string, normcase: string -> string) returns (r: bool)
      ensures r == InScope(projectRoots, normcase, filename)
    {
      var name := normcase(filename);
      for i := 0 to |projectRoots|
        invariant forall k :: 0 <= k < i ==> !StartsWith(name, normcase(projectRoots[k]))
      {
        var root := normcase(projectRoots[i]);
        if StartsWith(name, root) {
          return true;
        }
      }
      return false;
    }

    /**
     * `file_module_function_of`: the file name, the module name (none for an
     * empty file name), and the function name, qualified by the class that
     * the cache holds for the code object, which is resolved on first sight.
     */
    method FileModuleFunctionOf(code: Code, gc: Referrers, modname: string -> string)
      returns (filename: string, modulename: Option<string>, funcname: string)
      modifies this`callerCache
      ensures callerCache == Remember(old(callerCache), code, gc)
      ensures filename == code.filename
      ensures modulename == if code.filename == "" then None else Some(modname(code.filename))
      ensures funcname == QualifiedName(callerCache[code], code.coName)
    {
      filename := code.filename;
      if filename != "" {
        modulename := Some(modname(filename));
      } else {
        modulename := None;
      }
      funcname := code.coName;
      var clsname: Option<string> := None;
      if code in callerCache {
        if callerCache[code].Some? {
          clsname := callerCache[code];
        }
      } else {
        callerCache := callerCache[code := None];
        var funcs := gc.functionsOf(code);
        if |funcs| == 1 {
          var dicts := gc.dictsOf(funcs[0]);
          var classes: seq<string>;
          if |dicts| == 1 {
            classes := gc.classesOf(dicts[0]);
          } else if |dicts| > 1 {
            classes := gc.classesOf(dicts[1]);
          } else {
            classes := [];
          }
          if |classes| == 1 {
            clsname := Some(classes[0]);
            callerCache := callerCache[code := clsname];
          }
        }
      }
      if clsname.Some? {
        funcname := clsname.value + "." + funcname;
      }
    }

    /** `create_signature`: one `add_arg` per argument pair of the frame, in order. */
    method CreateSignature(frame: Frame, gc: Referrers, modname: string -> string) returns (sig: Signature)
      modifies this`callerCache
      ensures fresh(sig) && sig.Valid()
      ensures callerCache == Remember(old(callerCache), frame.code, gc)
      ensures sig.Data() == SignatureOf(frame, callerCache)
    {
      var filename, modulename, funcname := FileModuleFunctionOf(frame.code, gc, modname);
      assert SignatureOf(frame, callerCache) == SignatureData(filename, funcname, frame.args);
      sig := new Signature(filename, funcname);
      for i := 0 to |frame.args|
        modifies sig
        invariant fresh(sig) && sig.Valid()
        invariant sig.Data() == SignatureData(filename, funcname, frame.args[..i])
      {
        sig.AddArg(frame.args[i].name, frame.args[i].typeName);
        assert frame.args[..i + 1] == frame.args[..i] + [frame.args[i]];
      }
      assert frame.args[..|frame.args|] == frame.args;
    }
  }
}
