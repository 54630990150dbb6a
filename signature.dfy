/**
 * The `Signature` record of pydevd: the file and (possibly class-qualified)
 * name of a called function, and its arguments as `(name, type)` pairs kept
 * beside their `"name:type"` renderings.
 */
module Signatures {
  import opened Text

  /** One argument: its name and the name of its value's class. */
  datatype Arg = Arg(name: string, typeName: string)

  /** The value a `Signature` object holds; the caches compare signatures by it. */
  datatype SignatureData = SignatureData(file: string, name: string, args: seq<Arg>)

  /** `"%s:%s" % (name, type)`. */
  function ArgText(a: Arg): string {
    a.name + ":" + a.typeName
  }

  /** The renderings of a list of arguments, in order. */
  function ArgTexts(args: seq<Arg>): (r: seq<string>)
    ensures |r| == |args|
    ensures forall i :: 0 <= i < |args| ==> r[i] == ArgText(args[i])
  {
    seq(|args|, i requires 0 <= i < |args| => ArgText(args[i]))
  }

  /** The text `str(signature)` gives: `file name(n1:t1, n2:t2, ...)`. */
  function Render(d: SignatureData): string {
    d.file + " " + d.name + "(" + Join(", ", ArgTexts(d.args)) + ")"
  }

  class Signature {
    var file: string
    var name: string
    var args: seq<Arg>
    var argsStr: seq<string>

    /** The two argument lists run in parallel: entry i of `argsStr` renders entry i of `args`. */
    ghost predicate Valid()
      reads this
    {
      |argsStr| == |args| &&
      forall i :: 0 <= i < |args| ==> argsStr[i] == ArgText(args[i])
    }

    function Data(): SignatureData
      reads this
    {
      SignatureData(file, name, args)
    }

    constructor (file: string, name: string)
      ensures Valid()
      ensures Data() == SignatureData(file, name, [])
      ensures argsStr == []
    {
      this.file := file;
      this.name := name;
      this.args := [];
      this.argsStr := [];
    }

    /** Records one more argument at the end of both lists. */
    method AddArg(name: string, typeName: string)
      requires Valid()
      modifies this`args, this`argsStr
      ensures Valid()
      ensures args == old(args) + [Arg(name, typeName)]
      ensures argsStr == old(argsStr) + [ArgText(Arg(name, typeName))]
    {
      args := args + [Arg(name, typeName)];
      argsStr := argsStr + [name + ":" + typeName];
    }

    /** `__str__`: rendered from `argsStr`, it is the rendering of the recorded pairs. */
    function ToString(): (r: string)
      reads this
      requires Valid()
      ensures r == Render(Data())
    {
      assert argsStr == ArgTexts(args);
      file + " " + name + "(" + Join(", ", argsStr) + ")"
    }
  }

  /** With no arguments the rendering ends in `()`. */
  lemma RenderNoArgs(d: SignatureData)
    requires d.args == []
    ensures Render(d) == d.file + " " + d.name + "()"
  {
  }

  /**
   * Adding an argument extends the rendering inside the parentheses: by the
   * new `name:type`, after a `, ` unless it is the first argument.
   */
  lemma RenderAddArg(d: SignatureData, a: Arg)
    ensures var before := Render(d);
      |before| > 0 &&
      Render(SignatureData(d.file, d.name, d.args + [a])) ==
        before[..|before| - 1] + (if d.args == [] then "" else ", ") + ArgText(a) + ")"
  {
    var head := d.file + " " + d.name + "(";
    assert ArgTexts(d.args + [a]) == ArgTexts(d.args) + [ArgText(a)];
    JoinAppend(", ", ArgTexts(d.args), ArgText(a));
    var before := Render(d);
    assert before == (head + Join(", ", ArgTexts(d.args))) + ")";
    assert before[..|before| - 1] == head + Join(", ", ArgTexts(d.args));
  }
}
