/** `MethodSpec`: which return types a DAO method may have, how a method
    descriptor is built from the compiler's view of the method, and the
    source text emitted for it. */
module MethodSpecs {

  import opened Wrappers
  import opened JavaTypes
  import opened Text
  import opened Writers
  import opened ParameterSpecs
  import opened Sequencing

  /** The collection types a method may return. */
  const SupportedCollections: set<string> := {"java.util.List", "java.util.Set", "java.util.Collection"}

  /** The class types a method may return, alone or as a collection's element. */
  const SupportedClasses: set<string> := {
    "java.sql.ResultSet",
    "java.lang.Byte", "java.lang.Short", "java.lang.Integer", "java.lang.Long",
    "java.lang.Float", "java.lang.Double", "java.lang.Boolean", "java.lang.String",
    "java.sql.Date", "java.util.Date", "java.time.LocalDate",
    "java.sql.Time", "java.time.LocalTime",
    "java.sql.Timestamp", "java.time.LocalDateTime", "java.time.OffsetDateTime", "java.time.Instant",
    "java.math.BigDecimal",
    "java.sql.Array", "java.sql.Blob", "java.sql.Clob", "java.sql.Ref", "java.sql.RowId",
    "java.sql.NClob", "java.sql.SQLXML", "java.net.URL"
  }

  /** A DAO method as the compiler presents it (`ExecutableElement`); `query`
      is the value of its `@Query` annotation, `None` when it has none. */
  datatype MethodElement = MethodElement(name: string, params: seq<ParamElement>, returnType: JType, query: Option<string>)

  // ---------------------------------------------------------------------
  // Return types

  /** `isCollectionTypeSupported`: a declared type whose element is a
      supported collection and whose first type argument is a supported
      class. A raw collection type has no first argument, and `get(0)`
      throws. */
  function IsCollectionTypeSupported(t: JType): Result<bool>
  {
    if !t.DeclaredType? then Ok(false)
    else if t.element !in SupportedCollections then Ok(false)
    else if t.args == [] then Throw(IndexOutOfBounds)
    else Ok(TypeText(t.args[0]) in SupportedClasses)
  }

  /** `isReturnTypeSupported`: primitive, `void`, a supported class, or a
      supported collection, tested in that order on the type's text. */
  function IsReturnTypeSupported(t: JType): Result<bool>
  {
    if t.PrimitiveType? then Ok(true)
    else if TypeText(t) == "void" then Ok(true)
    else if TypeText(t) in SupportedClasses then Ok(true)
    else IsCollectionTypeSupported(t)
  }

  /** The accepted return types described by their shape rather than by
      their text: every primitive, `void`, a supported class, and a supported
      collection of a supported class (one level of nesting only). */
  ghost predicate Returnable(t: JType)
  {
    match t
    case PrimitiveType(_) => true
    case VoidType => true
    case ArrayType(_) => false
    case DeclaredType(e, args) =>
      if args == [] then e == "void" || e in SupportedClasses
      else e in SupportedCollections && args[0].DeclaredType? && args[0].args == []
           && args[0].element in SupportedClasses
  }

  /** A supported collection used without type arguments, e.g. a raw `List`. */
  ghost predicate RawCollection(t: JType)
  {
    t.DeclaredType? && t.args == [] && t.element in SupportedCollections
  }

  /** Every supported class name ends in a letter. */
  lemma SupportedClassEnding(x: string)
    requires x in SupportedClasses
    ensures |x| > 0 && x[|x| - 1] != '>' && x[|x| - 1] != ']' && x != "void"
    ensures x !in SupportedCollections
  {
  }

  /** A type's text names a supported class exactly when the type is that
      class, used raw. */
  lemma TextInSupportedClasses(t: JType)
    ensures TypeText(t) in SupportedClasses <==>
      t.DeclaredType? && t.args == [] && t.element in SupportedClasses
  {
    TypeTextEnding(t);
    if TypeText(t) in SupportedClasses {
      SupportedClassEnding(TypeText(t));
    }
  }

  /** The text test accepts exactly the returnable types, and throws only
      for a raw collection. */
  lemma ReturnTypeSupportedIff(t: JType)
    ensures IsReturnTypeSupported(t) == Ok(true) <==> Returnable(t)
    ensures IsReturnTypeSupported(t) == Throw(IndexOutOfBounds) <==> RawCollection(t)
    ensures IsReturnTypeSupported(t).Ok? || IsReturnTypeSupported(t) == Throw(IndexOutOfBounds)
  {
    TypeTextEnding(t);
    TextInSupportedClasses(t);
    if t.DeclaredType? && t.args != [] {
      TextInSupportedClasses(t.args[0]);
    }
    if t.DeclaredType? && t.element in SupportedClasses {
      SupportedClassEnding(t.element);
    }
  }

  /** A collection of collections is rejected, whatever the inner element. */
  lemma NestedCollectionRejected(outer: string, inner: string, element: JType)
    ensures IsReturnTypeSupported(DeclaredType(outer, [DeclaredType(inner, [element])])) == Ok(false)
  {
    ReturnTypeSupportedIff(DeclaredType(outer, [DeclaredType(inner, [element])]));
  }

  // ---------------------------------------------------------------------
  // Building a descriptor

  /** The parameter descriptors, built in declaration order; the first
      parameter whose type has no tag stops the stream with its exception. */
  function ParamsFrom(ps: seq<ParamElement>): (r: Result<seq<ParameterSpec>>)
    ensures r.Ok? <==> forall i :: 0 <= i < |ps| ==> ParameterSpecs.From(ps[i]).Ok?
    ensures r.Ok? ==> |r.value| == |ps|
    ensures r.Ok? ==> forall i :: 0 <= i < |ps| ==> ParameterSpecs.From(ps[i]) == Ok(r.value[i])
  {
    if ps == [] then Ok([])
    else
      match ParamsFrom(ps[..|ps| - 1])
      case Throw(e) => Throw(e)
      case Ok(init) =>
        match ParameterSpecs.From(ps[|ps| - 1])
        case Throw(e) => Throw(e)
        case Ok(p) => Ok(init + [p])
  }

  /** The exception of the first untaggable parameter is the one raised. */
  lemma {:induction false} ParamsFromFirstError(ps: seq<ParamElement>, k: nat)
    requires k < |ps| && ParameterSpecs.From(ps[k]).Throw?
    requires forall i :: 0 <= i < k ==> ParameterSpecs.From(ps[i]).Ok?
    ensures ParamsFrom(ps) == Throw(ParameterSpecs.From(ps[k]).error)
  {
    var init := ps[..|ps| - 1];
    if k < |init| {
      ParamsFromFirstError(init, k);
    } else {
      assert ParamsFrom(init).Ok?;
    }
  }

  datatype MethodSpec = MethodSpec(query: string, name: string, returnType: JType, params: seq<ParameterSpec>)
  {
    /** `write`: the method's source text appended to `w`; on an exception
        the text is cut short and the exception is returned. */
    method Write(w: Writer) returns (thrown: Option<Exception>)
      modifies w
      ensures MethodText(this).Ok? ==> thrown == None && w.text == old(w.text) + MethodText(this).value
      ensures MethodText(this).Throw? ==> thrown == Some(MethodText(this).error)
    {
      WriteSignature(w);
      thrown := GenerateMethodBody(w);
      if thrown == None {
        AppendAssoc(old(w.text), Signature(this), BodyText(this).value);
        w.Append("}\n");
        AppendAssoc(old(w.text), Signature(this) + BodyText(this).value, "}\n");
      }
    }

    /** The first part of `write`: return type, name and parameter list. */
    method WriteSignature(w: Writer)
      modifies w
      ensures w.text == old(w.text) + Signature(this)
    {
      w.Append("public " + TypeText(returnType) + " " + name + "(");
      WriteParameterList(params, w);
      w.Append(") {\n");
      AppendAssoc(old(w.text), "public " + TypeText(returnType) + " " + name + "(" + Join(ParamTexts(params), ", "), ") {\n");
    }

    /** `generateMethodBody`: the try-with-resources block, one `setObject`
        line per parameter, the query execution, the extraction and the
        catch clause. */
    method GenerateMethodBody(w: Writer) returns (thrown: Option<Exception>)
      modifies w
      ensures BodyText(this).Ok? ==> thrown == None && w.text == old(w.text) + BodyText(this).value
      ensures BodyText(this).Throw? ==> thrown == Some(BodyText(this).error)
    {
      WriteBodyHead(w);
      thrown := ProcessResultSet(returnType, w);
      if thrown == None {
        ghost var x := Extraction(returnType).value;
        AppendAssoc(old(w.text), BodyHead(this), x);
        w.Append(CatchClause);
        AppendAssoc(old(w.text), BodyHead(this) + x, CatchClause);
      }
    }

    /** The part of `generateMethodBody` before the extraction: the opening
        of the statement, the bindings and the query execution. */
    method WriteBodyHead(w: Writer)
      modifies w
      ensures w.text == old(w.text) + BodyHead(this)
    {
      w.Append(TryOpen(query));
      WriteBindings(params, w);
      AppendAssoc(old(w.text), TryOpen(query), Concat(BindingLines(params)));
      w.Append(ExecuteLine);
      AppendAssoc(old(w.text), TryOpen(query) + Concat(BindingLines(params)), ExecuteLine);
    }
  }

  /** The loop of `write` that lists the parameters' declarations,
      separated by `, `. */
  method WriteParameterList(params: seq<ParameterSpec>, w: Writer)
    modifies w
    ensures w.text == old(w.text) + Join(ParamTexts(params), ", ")
  {
    ghost var texts := ParamTexts(params);
    var i := 0;
    while i < |params|
      invariant 0 <= i <= |params|
      invariant w.text == old(w.text) + Join(texts[..i], ", ")
    {
      ghost var before := w.text;
      if i > 0 {
        w.Append(", ");
      }
      w.Append(params[i].ToString());
      assert texts[..i + 1][..i] == texts[..i];
      i := i + 1;
    }
    assert texts[..|params|] == texts;
  }

  /** The loop of `generateMethodBody` that binds each parameter at its
      1-based position. */
  method WriteBindings(params: seq<ParameterSpec>, w: Writer)
    modifies w
    ensures w.text == old(w.text) + Concat(BindingLines(params))
  {
    ghost var lines := BindingLines(params);
    var i := 0;
    while i < |params|
      invariant 0 <= i <= |params|
      invariant w.text == old(w.text) + Concat(lines[..i])
    {
      var param := params[i];
      w.Append(SetObjectLine(i + 1, param));
      assert lines[..i + 1] == lines[..i] + [lines[i]];
      AppendAssoc(old(w.text), Concat(lines[..i]), lines[i]);
      i := i + 1;
    }
    assert lines[..|params|] == lines;
  }

  /** `MethodSpec.from`: parameters first, then the return type, then the
      `@Query` value (absent: the annotation is dereferenced anyway). */
  function From(m: MethodElement): Result<MethodSpec>
  {
    match ParamsFrom(m.params)
    case Throw(e) => Throw(e)
    case Ok(params) =>
      match IsReturnTypeSupported(m.returnType)
      case Throw(e) => Throw(e)
      case Ok(supported) =>
        if !supported then Throw(IllegalArgument("Unsupported return type: " + TypeText(m.returnType)))
        else if m.query.None? then Throw(NullPointer)
        else Ok(MethodSpec(m.query.value, m.name, m.returnType, params))
  }

  /** A descriptor is built exactly when every parameter has a tag, the
      return type is returnable and the method has `@Query`; it keeps the
      query, the name, the return type and the parameters in order. */
  lemma FromSucceedsIff(m: MethodElement)
    ensures From(m).Ok? <==>
      && (forall i :: 0 <= i < |m.params| ==> ParameterSpecs.From(m.params[i]).Ok?)
      && Returnable(m.returnType)
      && m.query.Some?
    ensures From(m).Ok? ==>
      && From(m).value.query == m.query.value
      && From(m).value.name == m.name
      && From(m).value.returnType == m.returnType
      && |From(m).value.params| == |m.params|
      && forall i :: 0 <= i < |m.params| ==> ParameterSpecs.From(m.params[i]) == Ok(From(m).value.params[i])
  {
    ReturnTypeSupportedIff(m.returnType);
  }

  /** Which exception `from` raises: a parameter's first, then the return
      type's, then the missing annotation's. */
  lemma FromErrorPrecedence(m: MethodElement)
    ensures ParamsFrom(m.params).Throw? ==> From(m) == Throw(ParamsFrom(m.params).error)
    ensures ParamsFrom(m.params).Ok? && RawCollection(m.returnType) ==> From(m) == Throw(IndexOutOfBounds)
    ensures ParamsFrom(m.params).Ok? && !Returnable(m.returnType) && !RawCollection(m.returnType) ==>
      From(m) == Throw(IllegalArgument("Unsupported return type: " + TypeText(m.returnType)))
    ensures ParamsFrom(m.params).Ok? && Returnable(m.returnType) && m.query.None? ==>
      From(m) == Throw(NullPointer)
  {
    ReturnTypeSupportedIff(m.returnType);
  }

  // ---------------------------------------------------------------------
  // Extraction

  /** The forms of the statement that reads column 1 of the first row. Some
      branches of the source omit the `;` (and `getObject` the `.class`). */
  datatype Accessor =
    | ReturnResultSet                       // `return resultSet;`
    | Get(getter: string)                   // `return resultSet.getX(1);`
    | GetWithoutSemicolon(getter: string)   // `return resultSet.getX(1)`
    | GetObjectWithoutSemicolon(cls: string) // `return resultSet.getObject(1, C)`

  function AccessorText(a: Accessor): string
  {
    match a
    case ReturnResultSet => "return resultSet;\n"
    case Get(g) => "return resultSet." + g + "(1);\n"
    case GetWithoutSemicolon(g) => "return resultSet." + g + "(1)\n"
    case GetObjectWithoutSemicolon(c) => "return resultSet.getObject(1, " + c + ")\n"
  }

  /** The `switch` of `processResultSet` on the return type's text. */
  function ScalarAccessor(typeText: string): Option<Accessor>
  {
    match typeText
    case "java.sql.ResultSet" => Some(ReturnResultSet)
    case "byte" => Some(Get("getByte"))
    case "java.lang.Byte" => Some(Get("getByte"))
    case "short" => Some(Get("getShort"))
    case "java.lang.Short" => Some(Get("getShort"))
    case "int" => Some(Get("getInt"))
    case "java.lang.Integer" => Some(Get("getInt"))
    case "long" => Some(Get("getLong"))
    case "java.lang.Long" => Some(Get("getLong"))
    case "float" => Some(Get("getFloat"))
    case "java.lang.Float" => Some(Get("getFloat"))
    case "double" => Some(Get("getDouble"))
    case "java.lang.Double" => Some(Get("getDouble"))
    case "boolean" => Some(Get("getBoolean"))
    case "java.lang.Boolean" => Some(Get("getBoolean"))
    case "java.lang.String" => Some(Get("getString"))
    case "java.sql.Date" => Some(Get("getDate"))
    case "java.util.Date" => Some(GetWithoutSemicolon("getDate"))
    case "java.time.LocalDate" => Some(GetObjectWithoutSemicolon("java.time.LocalDate"))
    case "java.sql.Time" => Some(Get("getTime"))
    case "java.time.LocalTime" => Some(GetObjectWithoutSemicolon("java.time.LocalTime"))
    case "java.sql.Timestamp" => Some(Get("getTimestamp"))
    case "java.time.LocalDateTime" => Some(GetObjectWithoutSemicolon("java.time.LocalDateTime"))
    case "java.time.OffsetDateTime" => Some(GetObjectWithoutSemicolon("java.time.OffsetDateTime"))
    case "java.time.Instant" => Some(GetObjectWithoutSemicolon("java.time.Instant"))
    case "java.math.BigDecimal" => Some(Get("getBigDecimal"))
    case "java.sql.Array" => Some(Get("getArray"))
    case "java.sql.Blob" => Some(Get("getBlob"))
    case "java.sql.Clob" => Some(Get("getClob"))
    case "java.sql.Ref" => Some(Get("getRef"))
    case "java.sql.RowId" => Some(Get("getRowId"))
    case "java.sql.NClob" => Some(Get("getNClob"))
    case "java.sql.SQLXML" => Some(Get("getSQLXML"))
    case "java.net.URL" => Some(Get("getURL"))
    case _ => None
  }

  /** `mapCompoundType`: the first type argument is fetched before the
      collection kind is tested. */
  function CompoundStatement(t: JType): Result<string>
    requires t.DeclaredType?
  {
    if t.args == [] then Throw(IndexOutOfBounds)
    else
      match t.element
      case "java.util.List" =>
        Ok("return com.inputforge.dbx.ResultSetMapper.mapToList(resultSet, 1," + TypeText(t.args[0]) + ".class);\n")
      case "java.util.Collection" =>
        Ok("return com.inputforge.dbx.ResultSetMapper.mapToList(resultSet, 1," + TypeText(t.args[0]) + ".class);\n")
      case "java.util.Set" =>
        Ok("return com.inputforge.dbx.ResultSetMapper.mapToSet(resultSet, 1," + TypeText(t.args[0]) + ".class);\n")
      case _ => Throw(IllegalArgument("Unsupported return type: " + t.element))
  }

  /** `processResultSet`: the statement that turns the result set into the
      method's return value. A type with no `case` that is not a declared
      type fails the `(DeclaredType)` cast. */
  function Extraction(t: JType): Result<string>
  {
    if TypeText(t) == "void" then Ok("return;\n")
    else
      match ScalarAccessor(TypeText(t))
      case Some(a) => Ok(AccessorText(a))
      case None => if t.DeclaredType? then CompoundStatement(t) else Throw(ClassCast)
  }

  /** The `switch` has a case for every supported class and every primitive
      but `char`, and for nothing else. */
  lemma ScalarAccessorKeys(x: string)
    ensures ScalarAccessor(x).Some? <==>
      x in SupportedClasses || x in {"byte", "short", "int", "long", "float", "double", "boolean"}
  {
  }

  /** Every accepted return type has an extraction, except `char`, which
      passes the check and then fails the cast; the compound branch's own
      `IllegalArgumentException` is never reached. */
  lemma ExtractionOfAccepted(t: JType)
    requires Returnable(t)
    ensures Extraction(t).Ok? <==> t != PrimitiveType(Char)
    ensures t == PrimitiveType(Char) ==> Extraction(t) == Throw(ClassCast)
  {
    TypeTextEnding(t);
    ScalarAccessorKeys(TypeText(t));
    if t.DeclaredType? && t.args == [] && t.element in SupportedClasses {
      SupportedClassEnding(t.element);
    }
  }

  /** A primitive and its wrapper class are read with the same accessor. */
  lemma PrimitiveAndBoxedExtractAlike(p: Primitive)
    requires p != Char
    ensures Extraction(PrimitiveType(p)).Ok?
    ensures Extraction(PrimitiveType(p)) == Extraction(DeclaredType(BoxedName(p), []))
  {
  }

  /** `void` returns, a raw result set is handed back, a list or collection
      is drained with `mapToList` and a set with `mapToSet`, each reading
      column 1 as the element class. Any other parameterised type is
      refused with `IllegalArgumentException`; a raw type without a
      `switch` case fails `getTypeArguments().get(0)` first. */
  lemma ExtractionByCategory(t: JType)
    ensures t == VoidType ==> Extraction(t) == Ok("return;\n")
    ensures t == DeclaredType("java.sql.ResultSet", []) ==> Extraction(t) == Ok("return resultSet;\n")
    ensures t.DeclaredType? && t.args != [] && t.element in {"java.util.List", "java.util.Collection"} ==>
      Extraction(t) == Ok("return com.inputforge.dbx.ResultSetMapper.mapToList(resultSet, 1," + TypeText(t.args[0]) + ".class);\n")
    ensures t.DeclaredType? && t.args != [] && t.element == "java.util.Set" ==>
      Extraction(t) == Ok("return com.inputforge.dbx.ResultSetMapper.mapToSet(resultSet, 1," + TypeText(t.args[0]) + ".class);\n")
    ensures t.DeclaredType? && t.args != [] && t.element !in SupportedCollections ==>
      Extraction(t) == Throw(IllegalArgument("Unsupported return type: " + t.element))
    ensures t.DeclaredType? && t.args == [] && t.element != "void" && ScalarAccessor(t.element).None? ==>
      Extraction(t) == Throw(IndexOutOfBounds)
  {
    TypeTextEnding(t);
    ScalarAccessorKeys(TypeText(t));
    if ScalarAccessor(TypeText(t)).Some? && TypeText(t) in SupportedClasses {
      SupportedClassEnding(TypeText(t));
    }
  }

  /** Whether a statement ends with `;` and a newline. */
  predicate EndsWithSemicolon(s: string)
  {
    |s| >= 2 && s[|s| - 2..] == ";\n"
  }

  /** Every accessor reads column 1 of the current row; only the plain
      getter form and the result-set form end with `;`. */
  lemma AccessorForms(a: Accessor)
    ensures EndsWithSemicolon(AccessorText(a)) <==> a.Get? || a.ReturnResultSet?
    ensures a.Get? || a.GetWithoutSemicolon? ==>
      AccessorText(a)[..|"return resultSet."| + |a.getter| + 2] == "return resultSet." + a.getter + "(1"
    ensures a.GetObjectWithoutSemicolon? ==>
      AccessorText(a)[..|"return resultSet.getObject(1"|] == "return resultSet.getObject(1"
  {
    var t := AccessorText(a);
    match a
    case ReturnResultSet =>
    case Get(g) =>
      assert t == ("return resultSet." + g + "(1") + ");\n";
      assert t[|t| - 2..] == ";\n";
    case GetWithoutSemicolon(g) =>
      assert t == ("return resultSet." + g + "(1") + ")\n";
      assert t[|t| - 2] == ')';
    case GetObjectWithoutSemicolon(c) =>
      assert t == "return resultSet.getObject(1" + (", " + c + ")\n");
      assert t[|t| - 2] == ')';
  }

  /** The statements emitted without a trailing `;` are exactly those for
      `java.util.Date` and the five `java.time` types. */
  lemma MissingSemicolons(x: string)
    requires ScalarAccessor(x).Some?
    ensures EndsWithSemicolon(AccessorText(ScalarAccessor(x).value)) <==>
      x !in {"java.util.Date", "java.time.LocalDate", "java.time.LocalTime",
             "java.time.LocalDateTime", "java.time.OffsetDateTime", "java.time.Instant"}
  {
    AccessorForms(ScalarAccessor(x).value);
  }

  // ---------------------------------------------------------------------
  // Quoting the query

  /** `quoteJavaString`: every backslash doubled, then every `"` escaped. */
  function Quote(s: string): string
  {
    ReplaceChar(ReplaceChar(s, '\\', "\\\\"), '"', "\\\"")
  }

  /** The escape of one character. */
  function Escape(c: char): string
  {
    if c == '\\' then "\\\\" else if c == '"' then "\\\"" else [c]
  }

  /** Escaping character by character. */
  function EscapeAll(s: string): string
  {
    if s == [] then "" else EscapeAll(s[..|s| - 1]) + Escape(s[|s| - 1])
  }

  lemma {:induction false} EscapeAllAppend(a: string, b: string)
    ensures EscapeAll(a + b) == EscapeAll(a) + EscapeAll(b)
  {
    if b != [] {
      assert (a + b)[..|a + b| - 1] == a + b[..|b| - 1];
      EscapeAllAppend(a, b[..|b| - 1]);
    } else {
      assert a + b == a;
    }
  }

  /** The two passes of `quoteJavaString` amount to escaping each
      character once: the second pass never sees the backslashes the first
      one added as anything but backslashes. */
  lemma {:induction false} QuoteIsEscapeAll(s: string)
    ensures Quote(s) == EscapeAll(s)
  {
    if s != [] {
      var init, last := s[..|s| - 1], s[|s| - 1];
      assert s == init + [last];
      QuoteIsEscapeAll(init);
      ReplaceCharAppend(init, [last], '\\', "\\\\");
      ReplaceCharAppend(ReplaceChar(init, '\\', "\\\\"), ReplaceChar([last], '\\', "\\\\"), '"', "\\\"");
      assert ReplaceChar([last], '\\', "\\\\") == (if last == '\\' then "\\\\" else [last]) by {
        assert [last][..0] == [];
      }
      if last == '\\' {
        assert "\\\\" == ['\\'] + ['\\'];
        ReplaceCharAppend(['\\'], ['\\'], '"', "\\\"");
        assert ['\\'][..0] == [];
      } else {
        assert [last][..0] == [];
      }
    }
  }

  /** Reading escapes back: `\x` stands for `x`. */
  function Unquote(t: string): string
  {
    if t == [] then ""
    else if t[0] == '\\' && |t| >= 2 then [t[1]] + Unquote(t[2..])
    else [t[0]] + Unquote(t[1..])
  }

  /** Un-escaping the quoted query gives back the query. */
  lemma {:induction false} UnquoteQuote(s: string)
    ensures Unquote(Quote(s)) == s
  {
    QuoteIsEscapeAll(s);
    UnquoteEscapeAll(s);
  }

  lemma {:induction false} UnquoteEscapeAll(s: string)
    ensures Unquote(EscapeAll(s)) == s
  {
    if s != [] {
      assert s == [s[0]] + s[1..];
      EscapeAllAppend([s[0]], s[1..]);
      assert EscapeAll([s[0]]) == Escape(s[0]) by { assert [s[0]][..0] == []; }
      var rest := EscapeAll(s[1..]);
      assert (Escape(s[0]) + rest)[|Escape(s[0])|..] == rest;
      UnquoteEscapeAll(s[1..]);
    }
  }

  /** The number of backslashes immediately before position `i` of `t`. */
  function BackslashesBefore(t: string, i: nat): nat
    requires i <= |t|
  {
    if i == 0 || t[i - 1] != '\\' then 0 else 1 + BackslashesBefore(t, i - 1)
  }

  lemma {:induction false} BackslashesBeforePrefix(t: string, u: string, i: nat)
    requires i <= |t|
    ensures BackslashesBefore(t + u, i) == BackslashesBefore(t, i)
  {
    if i > 0 && t[i - 1] == '\\' {
      BackslashesBeforePrefix(t, u, i - 1);
    }
  }

  /** In the quoted text every `"` follows an odd run of backslashes, so it
      cannot end the Java string literal; the text ends with an even run, so
      the `"` the emitter writes next does end it. */
  lemma {:induction false} QuotesStayEscaped(s: string)
    ensures forall i :: 0 <= i < |Quote(s)| && Quote(s)[i] == '"' ==> BackslashesBefore(Quote(s), i) % 2 == 1
    ensures BackslashesBefore(Quote(s), |Quote(s)|) % 2 == 0
  {
    QuoteIsEscapeAll(s);
    EscapedQuotesOdd(s);
  }

  /** Every `"` of `t` follows an odd run of backslashes. */
  predicate QuotesEscaped(t: string)
  {
    forall i :: 0 <= i < |t| && t[i] == '"' ==> BackslashesBefore(t, i) % 2 == 1
  }

  lemma {:induction false} EscapedQuotesOdd(s: string)
    ensures QuotesEscaped(EscapeAll(s))
    ensures BackslashesBefore(EscapeAll(s), |EscapeAll(s)|) % 2 == 0
  {
    if s != [] {
      EscapedQuotesOdd(s[..|s| - 1]);
      EscapeKeepsQuotesEscaped(EscapeAll(s[..|s| - 1]), s[|s| - 1]);
    }
  }

  /** Escaping one more character after a text that ends with an even run
      of backslashes keeps every quote escaped and the run even. */
  lemma EscapeKeepsQuotesEscaped(t: string, c: char)
    requires QuotesEscaped(t) && BackslashesBefore(t, |t|) % 2 == 0
    ensures QuotesEscaped(t + Escape(c))
    ensures BackslashesBefore(t + Escape(c), |t + Escape(c)|) % 2 == 0
  {
    if c == '\\' || c == '"' {
      AppendChar(t, '\\');
      AppendChar(t + ['\\'], c);
      assert t + Escape(c) == t + ['\\'] + [c];
    } else {
      AppendChar(t, c);
      assert t + Escape(c) == t + [c];
    }
  }

  /** Appending one character: a backslash lengthens the final run of
      backslashes, anything else ends it, and a quote keeps every quote
      escaped when the run before it is odd. */
  lemma AppendChar(t: string, x: char)
    ensures BackslashesBefore(t + [x], |t| + 1) == if x == '\\' then 1 + BackslashesBefore(t, |t|) else 0
    ensures QuotesEscaped(t) && (x == '"' ==> BackslashesBefore(t, |t|) % 2 == 1) ==> QuotesEscaped(t + [x])
  {
    var t' := t + [x];
    BackslashesBeforePrefix(t, [x], |t|);
    if QuotesEscaped(t) && (x == '"' ==> BackslashesBefore(t, |t|) % 2 == 1) {
      forall i | 0 <= i < |t'| && t'[i] == '"'
        ensures BackslashesBefore(t', i) % 2 == 1
      {
        if i < |t| {
          BackslashesBeforePrefix(t, [x], i);
          assert t[i] == '"';
        }
      }
    }
  }

  /** Text without backslashes or quotes, newlines included, is emitted
      unchanged. */
  lemma {:induction false} QuoteKeepsPlainText(s: string)
    requires '\\' !in s && '"' !in s
    ensures Quote(s) == s
  {
    QuoteIsEscapeAll(s);
    PlainEscapeAll(s);
  }

  lemma {:induction false} PlainEscapeAll(s: string)
    requires '\\' !in s && '"' !in s
    ensures EscapeAll(s) == s
  {
    if s != [] {
      PlainEscapeAll(s[..|s| - 1]);
      assert s[..|s| - 1] + [s[|s| - 1]] == s;
    }
  }

  // ---------------------------------------------------------------------
  // Method text

  const SetObjectPrefix: string := "statement.setObject("

  /** The line that binds `p` at 1-based `position`. */
  function SetObjectLine(position: nat, p: ParameterSpec): string
  {
    SetObjectPrefix + Dec(position) + ", " + p.name + "," + p.sqlType + ");\n"
  }

  /** One binding line per parameter, in declaration order. */
  function BindingLines(ps: seq<ParameterSpec>): seq<string>
  {
    seq(|ps|, i requires 0 <= i < |ps| => SetObjectLine(i + 1, ps[i]))
  }

  /** The position a `setObject` line binds, read back from its text. */
  function PositionOf(line: string): nat
  {
    if SetObjectPrefix <= line then DigitsValue(LeadingDigits(line[|SetObjectPrefix|..])) else 0
  }

  lemma SetObjectLinePosition(position: nat, p: ParameterSpec)
    ensures PositionOf(SetObjectLine(position, p)) == position
  {
    var line := SetObjectLine(position, p);
    var rest := ", " + p.name + "," + p.sqlType + ");\n";
    assert line == SetObjectPrefix + (Dec(position) + rest);
    assert line[|SetObjectPrefix|..] == Dec(position) + rest;
    LeadingDigitsOf(Dec(position), rest);
    DecValue(position);
  }

  /** There are as many binding lines as parameters; the i-th (0-based)
      binds position i + 1 with the i-th parameter's name and tag, so no two
      lines bind the same position. */
  lemma BindingLinesInOrder(ps: seq<ParameterSpec>)
    ensures |BindingLines(ps)| == |ps|
    ensures forall i :: 0 <= i < |ps| ==> PositionOf(BindingLines(ps)[i]) == i + 1
    ensures forall i, j :: 0 <= i < j < |ps| ==> BindingLines(ps)[i] != BindingLines(ps)[j]
    ensures forall i :: 0 <= i < |ps| ==> BindsNameAndTag(BindingLines(ps)[i], ps[i])
  {
    forall i | 0 <= i < |ps|
      ensures PositionOf(BindingLines(ps)[i]) == i + 1 && BindsNameAndTag(BindingLines(ps)[i], ps[i])
    {
      SetObjectLinePosition(i + 1, ps[i]);
      SetObjectLineEnding(i + 1, ps[i]);
    }
  }

  /** A line that ends with the parameter's name and its tag as the last
      two arguments of `setObject`. */
  predicate BindsNameAndTag(line: string, p: ParameterSpec)
  {
    var tail := ", " + p.name + "," + p.sqlType + ");\n";
    |tail| <= |line| && line[|line| - |tail|..] == tail
  }

  lemma SetObjectLineEnding(position: nat, p: ParameterSpec)
    ensures BindsNameAndTag(SetObjectLine(position, p), p)
  {
    var head := SetObjectPrefix + Dec(position);
    var tail := ", " + p.name + "," + p.sqlType + ");\n";
    assert SetObjectLine(position, p) == head + tail;
  }

  /** The declaration texts of the parameters. */
  function ParamTexts(ps: seq<ParameterSpec>): seq<string>
  {
    seq(|ps|, i requires 0 <= i < |ps| => ps[i].ToString())
  }

  /** `try (var statement = connection.prepareStatement("<query>")) {`. */
  function TryOpen(query: string): string
  {
    "try (var statement = connection.prepareStatement(\"" + Quote(query) + "\")) {\n"
  }

  const ExecuteLine: string := "var resultSet = statement.executeQuery();\n"
  const CatchClause: string := "} catch (java.sql.SQLException e) {\n" + "throw new RuntimeException(e);\n" + "}\n"

  /** The body up to the extraction. */
  function BodyHead(m: MethodSpec): string
  {
    TryOpen(m.query) + Concat(BindingLines(m.params)) + ExecuteLine
  }

  function BodyText(m: MethodSpec): Result<string>
  {
    match Extraction(m.returnType)
    case Throw(e) => Throw(e)
    case Ok(x) => Ok(BodyHead(m) + x + CatchClause)
  }

  /** `public <R> <name>(<params>) {`. */
  function Signature(m: MethodSpec): string
  {
    "public " + TypeText(m.returnType) + " " + m.name + "(" + Join(ParamTexts(m.params), ", ") + ") {\n"
  }

  function MethodText(m: MethodSpec): Result<string>
  {
    match BodyText(m)
    case Throw(e) => Throw(e)
    case Ok(b) => Ok(Signature(m) + b + "}\n")
  }

  /** `processResultSet`, writing into `w`. */
  method ProcessResultSet(returnType: JType, w: Writer) returns (thrown: Option<Exception>)
    modifies w
    ensures Extraction(returnType).Ok? ==> thrown == None && w.text == old(w.text) + Extraction(returnType).value
    ensures Extraction(returnType).Throw? ==> thrown == Some(Extraction(returnType).error)
  {
    var text := TypeText(returnType);
    if text == "void" {
      w.Append("return;\n");
      return None;
    }
    match ScalarAccessor(text)
    case Some(a) =>
      w.Append(AccessorText(a));
      thrown := None;
    case None =>
      if returnType.DeclaredType? {
        thrown := MapCompoundType(returnType, w);
      } else {
        thrown := Some(ClassCast);
      }
  }

  /** `mapCompoundType`, writing into `w`. */
  method MapCompoundType(returnType: JType, w: Writer) returns (thrown: Option<Exception>)
    requires returnType.DeclaredType?
    modifies w
    ensures CompoundStatement(returnType).Ok? ==>
      thrown == None && w.text == old(w.text) + CompoundStatement(returnType).value
    ensures CompoundStatement(returnType).Throw? ==> thrown == Some(CompoundStatement(returnType).error)
  {
    var clazz := returnType.element;
    if returnType.args == [] {
      return Some(IndexOutOfBounds);
    }
    var elementType := returnType.args[0];
    if clazz == "java.util.List" || clazz == "java.util.Collection" {
      w.Append("return com.inputforge.dbx.ResultSetMapper.mapToList(resultSet, 1," + TypeText(elementType) + ".class);\n");
      thrown := None;
    } else if clazz == "java.util.Set" {
      w.Append("return com.inputforge.dbx.ResultSetMapper.mapToSet(resultSet, 1," + TypeText(elementType) + ".class);\n");
      thrown := None;
    } else {
      thrown := Some(IllegalArgument("Unsupported return type: " + clazz));
    }
  }

  /** The sample `UserDao`: `List<Integer> getUserIds()` drains column 1
      into a list of `java.lang.Integer`. */
  lemma UserIdsExtraction()
    ensures Extraction(DeclaredType("java.util.List", [DeclaredType("java.lang.Integer", [])]))
      == Ok("return com.inputforge.dbx.ResultSetMapper.mapToList(resultSet, 1," + "java.lang.Integer" + ".class);\n")
  {
    var t := DeclaredType("java.util.List", [DeclaredType("java.lang.Integer", [])]);
    ExtractionByCategory(t);
    assert TypeText(t.args[0]) == "java.lang.Integer";
  }

  /** The sample `UserDao`: `int countUserById(long)` reads column 1 with
      `getInt`, and `ResultSet getUserById(long)` hands the result set back. */
  lemma UserCountExtraction()
    ensures Extraction(PrimitiveType(Int)) == Ok("return resultSet.getInt(1);\n")
    ensures Extraction(DeclaredType("java.sql.ResultSet", [])) == Ok("return resultSet;\n")
  {
    assert TypeText(PrimitiveType(Int)) == "int";
    assert ScalarAccessor("int") == Some(Get("getInt"));
    assert AccessorText(Get("getInt")) == "return resultSet.getInt(1);\n";
  }

  // ---------------------------------------------------------------------
  // A sequence of methods

  /** What `write` produces for each method, in insertion order. */
  function MethodTexts(methods: seq<MethodSpec>): (r: seq<Result<string>>)
    ensures |r| == |methods|
  {
    if methods == [] then []
    else MethodTexts(methods[..|methods| - 1]) + [MethodText(methods[|methods| - 1])]
  }

  lemma {:induction false} MethodTextsAt(methods: seq<MethodSpec>, i: nat)
    requires i < |methods|
    ensures MethodTexts(methods)[i] == MethodText(methods[i])
  {
    if i < |methods| - 1 {
      MethodTextsAt(methods[..|methods| - 1], i);
    }
  }

  /** The methods' texts in insertion order; the first method whose text
      cannot be produced stops the writing with its exception. */
  function MethodsText(methods: seq<MethodSpec>): Result<string>
  {
    Sequenced(MethodTexts(methods))
  }

  /** The methods can be written exactly when each of them can. */
  lemma MethodsTextOkIff(methods: seq<MethodSpec>)
    ensures MethodsText(methods).Ok? <==> forall i :: 0 <= i < |methods| ==> MethodText(methods[i]).Ok?
  {
    SequencedOkIff(MethodTexts(methods));
    forall i | 0 <= i < |methods| {
      MethodTextsAt(methods, i);
    }
  }

  /** Writing stops at the first method that throws, with its exception. */
  lemma MethodsTextFirstError(methods: seq<MethodSpec>, k: nat)
    requires k < |methods| && MethodText(methods[k]).Throw?
    requires forall i :: 0 <= i < k ==> MethodText(methods[i]).Ok?
    ensures MethodsText(methods) == Throw(MethodText(methods[k]).error)
  {
    forall i | 0 <= i <= k {
      MethodTextsAt(methods, i);
    }
    SequencedFirstError(MethodTexts(methods), k);
  }

  /** The texts of a prefix of the methods are a prefix of their texts. */
  lemma {:induction false} MethodTextsPrefix(methods: seq<MethodSpec>, k: nat)
    requires k <= |methods|
    ensures MethodTexts(methods)[..k] == MethodTexts(methods[..k])
    decreases |methods| - k
  {
    if k < |methods| {
      MethodTextsPrefix(methods[..|methods| - 1], k);
      assert methods[..|methods| - 1][..k] == methods[..k];
    } else {
      assert methods[..k] == methods;
    }
  }

  lemma PrefixErrorPropagates(methods: seq<MethodSpec>, k: nat)
    requires k <= |methods| && Sequenced(MethodTexts(methods[..k])).Throw?
    ensures MethodsText(methods) == Sequenced(MethodTexts(methods[..k]))
  {
    MethodTextsPrefix(methods, k);
    SequencedPrefixError(MethodTexts(methods), k);
  }

  /** Writes each method in order; the first that throws stops the loop
      and its exception is returned. */
  method WriteMethods(methods: seq<MethodSpec>, w: Writer) returns (thrown: Option<Exception>)
    modifies w
    ensures MethodsText(methods).Ok? ==> thrown == None && w.text == old(w.text) + MethodsText(methods).value
    ensures MethodsText(methods).Throw? ==> thrown == Some(MethodsText(methods).error)
  {
    var i := 0;
    while i < |methods|
      invariant 0 <= i <= |methods|
      invariant Sequenced(MethodTexts(methods[..i])).Ok?
      invariant w.text == old(w.text) + Sequenced(MethodTexts(methods[..i])).value
    {
      ghost var done := MethodTexts(methods[..i]);
      ghost var next := MethodText(methods[i]);
      thrown := methods[i].Write(w);
      assert methods[..i + 1][..i] == methods[..i];
      assert MethodTexts(methods[..i + 1]) == done + [next];
      if thrown != None {
        SequencedSnocError(done, next);
        PrefixErrorPropagates(methods, i + 1);
        return;
      }
      SequencedSnoc(done, next);
      AppendAssoc(old(w.text), Sequenced(done).value, next.value);
      i := i + 1;
    }
    assert methods[..|methods|] == methods;
    thrown := None;
  }
}
