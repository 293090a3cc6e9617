/** `JavaFileComposer`: a package name with a list of imports and a list of
    declared classes, each only ever appended to. */
module JavaFileComposers {

  import opened ClassSpecs

  class JavaFileComposer {
    /** Fixed when the composer is made. */
    const packageName: string
    var imports: seq<string>
    var classSpecs: seq<ClassSpec>

    /** `withPackage(p)`: package `p`, no imports, no classes. */
    constructor WithPackage(packageName: string)
      ensures this.packageName == packageName && imports == [] && classSpecs == []
    {
      this.packageName := packageName;
      imports := [];
      classSpecs := [];
    }

    /** `addImport`: exactly `importName`, at the end of the imports. */
    method AddImport(importName: string) returns (self: JavaFileComposer)
      modifies this
      ensures self == this && imports == old(imports) + [importName] && classSpecs == old(classSpecs)
    {
      imports := imports + [importName];
      self := this;
    }

    /** `importClass`: the class's canonical name, at the end of the imports. */
    method ImportClass(c: JavaClass) returns (self: JavaFileComposer)
      modifies this
      ensures self == this && imports == old(imports) + [c.canonicalName] && classSpecs == old(classSpecs)
    {
      self := AddImport(c.canonicalName);
    }

    /** `declare`: one more class at the end; the imports stay as they are. */
    method Declare(classSpec: ClassSpec) returns (self: JavaFileComposer)
      modifies this
      ensures self == this && classSpecs == old(classSpecs) + [classSpec] && imports == old(imports)
    {
      classSpecs := classSpecs + [classSpec];
      self := this;
    }
  }
}
