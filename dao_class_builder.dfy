/** `DaoClassBuilder`: collects the method descriptors of one DAO interface
    and writes the source of its implementation class. */
module DaoClassBuilders {

  import opened Wrappers
  import opened Text
  import opened Writers
  import opened MethodSpecs
  import opened Sequencing

  const ImplSuffix: string := "Impl"

  /** The text between the package name and the implementation class name. */
  const AfterPackage: string := ";\n\n" + "import java.sql.Connection;\n\n" + "public class "

  /** The package line, the `Connection` import and the class declaration
      line of `<className>Impl`. */
  function Header(packageName: string, className: string): string
  {
    "package " + packageName + AfterPackage + (className + ImplSuffix) + Supertypes(className)
  }

  /** The rest of the declaration line: the superclass and the interface. */
  function Supertypes(className: string): string
  {
    " extends AbstractDao" + " implements " + className + " {\n\n"
  }

  /** The one constructor, which hands the connection to `AbstractDao`. */
  function ConstructorText(implClassName: string): string
  {
    "public " + implClassName + "(Connection connection) {\n" + "super(connection);\n" + "}\n\n"
  }

  /** The whole source file of the implementation class. */
  function SourceText(packageName: string, className: string, methods: seq<MethodSpec>): Result<string>
  {
    match MethodsText(methods)
    case Throw(e) => Throw(e)
    case Ok(body) => Ok(Header(packageName, className) + ConstructorText(className + ImplSuffix) + body + "}")
  }

  /** The source can be produced exactly when every method's text can; a
      failure is that of the first failing method. */
  lemma SourceTextOkIff(packageName: string, className: string, methods: seq<MethodSpec>)
    ensures SourceText(packageName, className, methods).Ok? <==>
      forall i :: 0 <= i < |methods| ==> MethodText(methods[i]).Ok?
  {
    MethodsTextOkIff(methods);
  }

  lemma SourceTextFirstError(packageName: string, className: string, methods: seq<MethodSpec>, k: nat)
    requires k < |methods| && MethodText(methods[k]).Throw?
    requires forall i :: 0 <= i < k ==> MethodText(methods[i]).Ok?
    ensures SourceText(packageName, className, methods) == Throw(MethodText(methods[k]).error)
  {
    MethodsTextFirstError(methods, k);
  }

  /** Adding a method leaves the text written so far unchanged and puts the
      new method's text right before the closing brace. */
  lemma AddingAMethodAppendsItsText(packageName: string, className: string, methods: seq<MethodSpec>, m: MethodSpec)
    requires SourceText(packageName, className, methods).Ok? && MethodText(m).Ok?
    ensures var before := SourceText(packageName, className, methods).value;
      SourceText(packageName, className, methods + [m])
        == Ok(before[..|before| - 1] + MethodText(m).value + "}")
  {
    assert (methods + [m])[..|methods|] == methods;
    SequencedSnoc(MethodTexts(methods), MethodText(m));
    var prefix := Header(packageName, className) + ConstructorText(className + ImplSuffix);
    var body := MethodsText(methods).value;
    var x := MethodText(m).value;
    var before := SourceText(packageName, className, methods).value;
    assert before == (prefix + body) + "}";
    assert before[..|before| - 1] == prefix + body;
    AppendAssoc(prefix, body, x);
  }

  /** The fully qualified name of the class a source text declares: its
      package, a dot, and the word after `public class `. */
  function DeclaredClass(text: string): string
  {
    if "package " <= text then
      var (pkg, rest) := SplitAtFirst(text[|"package "|..], ';');
      if AfterPackage[1..] <= rest then pkg + "." + SplitAtFirst(rest[|AfterPackage| - 1..], ' ').0
      else ""
    else ""
  }

  /** A text that opens with the package line and `public class <name> `
      declares `<package>.<name>`. */
  lemma {:induction false} DeclaredClassOf(packageName: string, name: string, tail: string)
    requires ';' !in packageName && ' ' !in name
    ensures DeclaredClass("package " + packageName + AfterPackage + name + " " + tail) == packageName + "." + name
  {
    var text := "package " + packageName + AfterPackage + name + " " + tail;
    var rest := AfterPackage[1..] + name + [' '] + tail;
    assert AfterPackage == [';'] + AfterPackage[1..];
    assert text == "package " + (packageName + [';'] + rest);
    assert text[|"package "|..] == packageName + [';'] + rest;
    SplitAtFirstJoin(packageName, ';', rest);
    assert rest[|AfterPackage| - 1..] == name + [' '] + tail;
    SplitAtFirstJoin(name, ' ', tail);
  }

  /** The class a generated source declares is the builder's canonical
      name, the value the registry constructs. */
  lemma SourceDeclaresCanonicalName(packageName: string, className: string, methods: seq<MethodSpec>)
    requires ';' !in packageName && ' ' !in className
    requires SourceText(packageName, className, methods).Ok?
    ensures DeclaredClass(SourceText(packageName, className, methods).value) == packageName + "." + className + ImplSuffix
  {
    var tail := SourceOpening(packageName, className, methods);
    DeclaredClassOf(packageName, className + ImplSuffix, tail);
  }

  /** A generated source opens with the package line and `public class
      <className>Impl `. */
  lemma SourceOpening(packageName: string, className: string, methods: seq<MethodSpec>) returns (tail: string)
    requires SourceText(packageName, className, methods).Ok?
    ensures SourceText(packageName, className, methods).value
      == "package " + packageName + AfterPackage + (className + ImplSuffix) + " " + tail
  {
    var lead := "package " + packageName + AfterPackage + (className + ImplSuffix);
    var rest := Supertypes(className) + ConstructorText(className + ImplSuffix) + MethodsText(methods).value + "}";
    ShiftTail(lead, Supertypes(className), ConstructorText(className + ImplSuffix), MethodsText(methods).value);
    assert rest == " " + rest[1..];
    tail := rest[1..];
    AppendAssoc(lead, " ", tail);
  }

  /** `getCanoncialName` is the class the builder's `write` declares: the
      name the registry constructs is the class that was generated. */
  lemma WrittenClassIsCanonical(b: DaoClassBuilder)
    requires ';' !in b.packageName && ' ' !in b.className
    requires SourceText(b.packageName, b.className, b.methods).Ok?
    ensures DeclaredClass(SourceText(b.packageName, b.className, b.methods).value) == b.CanonicalName()
  {
    SourceDeclaresCanonicalName(b.packageName, b.className, b.methods);
  }

  lemma ShiftTail(a: string, b: string, c: string, d: string)
    ensures a + b + c + d + "}" == a + (b + c + d + "}")
  {
  }

  class DaoClassBuilder {
    const packageName: string
    const className: string
    /** The method descriptors, in the order they were added. */
    var methods: seq<MethodSpec>

    constructor (packageName: string, className: string)
      ensures this.packageName == packageName && this.className == className
      ensures methods == []
    {
      this.packageName := packageName;
      this.className := className;
      methods := [];
    }

    /** `addMethodSpec`: one more method at the end. */
    method AddMethodSpec(m: MethodSpec)
      modifies this
      ensures methods == old(methods) + [m]
    {
      methods := methods + [m];
    }

    /** `getImplClassName`. */
    function ImplClassName(): (r: string)
      ensures r == className + ImplSuffix
    {
      className + ImplSuffix
    }

    /** `getCanoncialName`: the implementation class qualified by the
        interface's package. */
    function CanonicalName(): (r: string)
      ensures r == packageName + "." + ImplClassName()
    {
      packageName + "." + ImplClassName()
    }

    /** `write`: the header, the constructor, every method in insertion
        order, and the closing brace. A method that throws cuts the text
        short and its exception is returned. */
    method Write(w: Writer) returns (thrown: Option<Exception>)
      modifies w
      ensures SourceText(packageName, className, methods).Ok? ==>
        thrown == None && w.text == old(w.text) + SourceText(packageName, className, methods).value
      ensures SourceText(packageName, className, methods).Throw? ==>
        thrown == Some(SourceText(packageName, className, methods).error)
    {
      var implClassName := ImplClassName();
      w.Append(Header(packageName, className));
      w.Append(ConstructorText(implClassName));
      ghost var head := Header(packageName, className) + ConstructorText(implClassName);
      AppendAssoc(old(w.text), Header(packageName, className), ConstructorText(implClassName));
      thrown := WriteMethods(methods, w);
      if thrown != None {
        return;
      }
      w.Append("}");
      AppendAssoc(old(w.text), head, MethodsText(methods).value);
      AppendAssoc(old(w.text), head + MethodsText(methods).value, "}");
      thrown := None;
    }
  }
}
