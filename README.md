# dbx code generator, modelled in Dafny

`dbx` is a Java annotation processor. It reads every interface marked
`@Dao` whose methods carry a literal SQL query in `@Query`, and generates an
implementation class for each one. A generated method binds its parameters to
the query's placeholders, runs the query and turns the result set into the
declared return type. The processor also writes a registry class with a
`switch` from interface name to implementation, plus a `META-INF/services`
file that names that registry. At run time, `DaoFactory.create` asks every
installed registry in turn for an implementation. `ResultSetMapper` drains
a result set into a list or a set.

This project models that core in Dafny and proves properties of the model.
There is one module per Java file:

| module | Java file |
|---|---|
| `ParameterSpecs` | `ParameterSpec.java` |
| `MethodSpecs` | `MethodSpec.java` |
| `DaoClassBuilders` | `DaoClassBuilder.java` |
| `ClassSpecs` | `ClassSpec.java` |
| `JavaFileComposers` | `JavaFileComposer.java` |
| `AnnotationProcessor` | `DbxAnnotationProcessor.java` |
| `ResultSetMappers` | `ResultSetMapper.java` |
| `DaoFactories` | `DaoFactory.java` |

Some modules are small shared pieces:

- `Wrappers` holds `Option`, `Result` and the Java exceptions that matter.
- `Writers` holds a `Writer` whose text `Append` extends.
- `JavaTypes` holds a type mirror as a datatype, with its `toString()`.
- `Text` holds string helpers.
- `Sequencing` concatenates a sequence of texts that may throw.

The model has the source's own form:

- **Pure code becomes functions.** The type tables, `quoteJavaString` and `from` are functions.
- **Classes that are updated in place become classes.** `DaoClassBuilder`, `ClassSpec`, `JavaFileComposer`, the processor and the result set are Dafny classes. Their methods say exactly what changes.
- **Emitters become methods.** Each `write` appends to a `Writer` step by step. Its `ensures` ties the appended text to a specification function, such as `MethodText`, `SourceText`, `ClassText` or `RegistryText`. The lemmas state what the source promises about those functions.
- **Exceptions are results.** A Java exception is a `Throw` result, or an out-parameter that names it. Only `IllegalArgumentException` is caught, in `processDaoInterface`. Every other exception escapes `process` and is modelled as such.

Three behaviours of the code are worth knowing before reading the model:

- **A method without `@Query`.** It is reported (`DbxAnnotationProcessor.java:134-140`), and then `MethodSpec.from` is called on it all the same. `from` dereferences the missing annotation (`MethodSpec.java:76`), so a `NullPointerException` escapes `process` and ends the whole round (`AnnotationProcessor.MissingQueryEscapes`).
- **Types that crash the round.** A return type refused with `IllegalArgumentException` drops only its own interface, because that exception is caught in `processDaoInterface`. A raw `List`, `Set` or `Collection` instead throws `IndexOutOfBoundsException` at `MethodSpec.java:112`. A `char` return type passes the check at `MethodSpec.java:84` and then throws `ClassCastException` at `MethodSpec.java:258`. Neither is caught, so both escape `process`.
- **A partial implementation.** In the `char` case, the source file is created before writing starts, so a partial implementation is left behind.

## Model

| member | source | states |
|---|---|---|
| ParameterSpecs.SqlTypeOf | processor/src/main/java/com/inputforge/dbx/codegen/ParameterSpec.java:24-55 | a tag exactly for the bindable type names, always one of the JDBC tags; otherwise `IllegalArgumentException("Unsupported type: " + type)` |
| ParameterSpecs.PrimitiveAndBoxedBindAlike | processor/src/main/java/com/inputforge/dbx/codegen/ParameterSpec.java:28-42 | int/long/float/double/boolean bind with the same tag as their wrapper (INTEGER, BIGINT, FLOAT, DOUBLE, BOOLEAN); byte, short and char have no tag |
| ParameterSpecs.TemporalAndTextTags | processor/src/main/java/com/inputforge/dbx/codegen/ParameterSpec.java:26-50 | String binds as VARCHAR; the three date types as DATE; the three instant types as TIMESTAMP |
| ParameterSpecs.From | processor/src/main/java/com/inputforge/dbx/codegen/ParameterSpec.java:16-22 | succeeds exactly for a bindable type text; keeps the name and type text, and its tag is the table's tag for that type |
| ParameterSpecs.ToStringSplitsBack | processor/src/main/java/com/inputforge/dbx/codegen/ParameterSpec.java:61-64 | `toString` is `type + " " + name`: split at its first space it gives back the type and the name |
| MethodSpecs.ReturnTypeSupportedIff | processor/src/main/java/com/inputforge/dbx/codegen/MethodSpec.java:83-114 | the text test accepts exactly primitives, `void`, supported classes, and supported collections of a supported class; a raw collection throws `IndexOutOfBoundsException` |
| MethodSpecs.NestedCollectionRejected | processor/src/main/java/com/inputforge/dbx/codegen/MethodSpec.java:99-114 | a collection of collections is rejected whatever its element |
| MethodSpecs.ParamsFrom | processor/src/main/java/com/inputforge/dbx/codegen/MethodSpec.java:63-66 | all parameters built, in order, exactly when each one can be |
| MethodSpecs.ParamsFromFirstError | processor/src/main/java/com/inputforge/dbx/codegen/MethodSpec.java:63-66 | the exception raised is that of the first parameter without a tag |
| MethodSpecs.FromSucceedsIff | processor/src/main/java/com/inputforge/dbx/codegen/MethodSpec.java:62-81 | a descriptor is built exactly when every parameter has a tag, the return type is accepted and `@Query` is present; it keeps query, name, return type and parameters |
| MethodSpecs.FromErrorPrecedence | processor/src/main/java/com/inputforge/dbx/codegen/MethodSpec.java:62-81 | parameter errors first, then a raw collection's `IndexOutOfBoundsException`, then `IllegalArgumentException("Unsupported return type: " + t)`, then the missing annotation's `NullPointerException` |
| MethodSpecs.MethodSpec.Write | processor/src/main/java/com/inputforge/dbx/codegen/MethodSpec.java:116-137 | appends exactly the signature, body and `}` of `MethodText`; when extraction throws, returns that exception |
| MethodSpecs.MethodSpec.WriteSignature | processor/src/main/java/com/inputforge/dbx/codegen/MethodSpec.java:116-131 | appends `public R name(`, the parameters' texts joined by `, `, and `) {` |
| MethodSpecs.MethodSpec.GenerateMethodBody | processor/src/main/java/com/inputforge/dbx/codegen/MethodSpec.java:139-160 | appends the try block with the quoted query, the binding lines, the execution, the extraction and the catch clause |
| MethodSpecs.MethodSpec.WriteBodyHead | processor/src/main/java/com/inputforge/dbx/codegen/MethodSpec.java:140-154 | appends the opening of the statement with the quoted query, one binding line per parameter and the query execution |
| MethodSpecs.WriteParameterList | processor/src/main/java/com/inputforge/dbx/codegen/MethodSpec.java:123-129 | the loop appends the parameters' declaration texts joined by `, ` |
| MethodSpecs.WriteBindings | processor/src/main/java/com/inputforge/dbx/codegen/MethodSpec.java:144-151 | the loop appends one `setObject` line per parameter, in order |
| MethodSpecs.BindingLinesInOrder | processor/src/main/java/com/inputforge/dbx/codegen/MethodSpec.java:144-151 | exactly one binding line per parameter; the i-th binds position i+1 and ends with the i-th parameter's name and tag; no two lines are equal |
| MethodSpecs.SetObjectLinePosition | processor/src/main/java/com/inputforge/dbx/codegen/MethodSpec.java:146 | the position written in a `setObject` line reads back as the position bound |
| MethodSpecs.ScalarAccessorKeys | processor/src/main/java/com/inputforge/dbx/codegen/MethodSpec.java:162-261 | the `switch` has a case for exactly the supported classes and the primitive keywords other than `char` |
| MethodSpecs.ExtractionOfAccepted | processor/src/main/java/com/inputforge/dbx/codegen/MethodSpec.java:162-261 | every accepted return type has an extraction except `char`, which fails with `ClassCastException` |
| MethodSpecs.PrimitiveAndBoxedExtractAlike | processor/src/main/java/com/inputforge/dbx/codegen/MethodSpec.java:162-261 | a primitive and its wrapper class are read with the same statement |
| MethodSpecs.ExtractionByCategory | processor/src/main/java/com/inputforge/dbx/codegen/MethodSpec.java:162-282 | `void` gives `return;`, `ResultSet` gives `return resultSet;`, List/Collection give `mapToList`, Set gives `mapToSet`, other parameterised types exactly `IllegalArgumentException` naming the type, other raw types without a `case` `IndexOutOfBoundsException` |
| MethodSpecs.AccessorForms | processor/src/main/java/com/inputforge/dbx/codegen/MethodSpec.java:162-261 | every accessor reads column 1; only the plain forms end with `;` |
| MethodSpecs.MissingSemicolons | processor/src/main/java/com/inputforge/dbx/codegen/MethodSpec.java:207-228 | the statements without a trailing `;` are exactly those of the cases at lines 207, 210, 216, 222, 225 and 228 |
| MethodSpecs.ProcessResultSet | processor/src/main/java/com/inputforge/dbx/codegen/MethodSpec.java:162-261 | appends exactly the extraction for the return type, or returns its exception |
| MethodSpecs.MapCompoundType | processor/src/main/java/com/inputforge/dbx/codegen/MethodSpec.java:263-282 | appends the `mapToList`/`mapToSet` call for the first type argument, or returns its exception |
| MethodSpecs.QuoteIsEscapeAll | processor/src/main/java/com/inputforge/dbx/codegen/MethodSpec.java:284-288 | the two `replace` passes escape each character on its own: `\` becomes `\\`, `"` becomes `\"` |
| MethodSpecs.UnquoteQuote | processor/src/main/java/com/inputforge/dbx/codegen/MethodSpec.java:284-288 | un-escaping the quoted query gives back the query |
| MethodSpecs.QuotesStayEscaped | processor/src/main/java/com/inputforge/dbx/codegen/MethodSpec.java:284-288 | in the quoted text every `"` follows an odd run of backslashes, and the text ends after an even run |
| MethodSpecs.QuoteKeepsPlainText | processor/src/main/java/com/inputforge/dbx/codegen/MethodSpec.java:284-288 | text without `\` or `"`, newlines included, is left as it is |
| MethodSpecs.UserIdsExtraction | sample/src/main/java/com/inputforge/dbx/UserDao.java:15-16 | `List<Integer> getUserIds()` drains column 1 with `mapToList(resultSet, 1,java.lang.Integer.class)` |
| MethodSpecs.UserCountExtraction | sample/src/main/java/com/inputforge/dbx/UserDao.java:9-13 | `int countUserById(long)` reads `getInt(1)`; `ResultSet getUserById(long)` hands the result set back |
| MethodSpecs.MethodsTextOkIff | processor/src/main/java/com/inputforge/dbx/codegen/DaoClassBuilder.java:59-61 | the methods can be written exactly when each of them can |
| MethodSpecs.MethodsTextFirstError | processor/src/main/java/com/inputforge/dbx/codegen/DaoClassBuilder.java:59-61 | writing stops at the first method that throws, with its exception |
| MethodSpecs.WriteMethods | processor/src/main/java/com/inputforge/dbx/codegen/DaoClassBuilder.java:59-61 | the loop appends every method's text in insertion order, or returns the first exception |
| DaoClassBuilders.DaoClassBuilder.constructor | processor/src/main/java/com/inputforge/dbx/codegen/DaoClassBuilder.java:15-19 | the names are kept and the method list is empty |
| DaoClassBuilders.DaoClassBuilder.AddMethodSpec | processor/src/main/java/com/inputforge/dbx/codegen/DaoClassBuilder.java:21-23 | appends exactly one method at the end; the names cannot change |
| DaoClassBuilders.WrittenClassIsCanonical | processor/src/main/java/com/inputforge/dbx/codegen/DaoClassBuilder.java:67-73 | `getCanoncialName()` (the package, a dot and `getImplClassName()`) is exactly the class that the builder's written source declares, so the registry names the generated class |
| DaoClassBuilders.DaoClassBuilder.Write | processor/src/main/java/com/inputforge/dbx/codegen/DaoClassBuilder.java:25-65 | appends exactly `SourceText`: header, one constructor, the methods in order, `}`; a method that throws stops it with its exception |
| DaoClassBuilders.SourceTextOkIff | processor/src/main/java/com/inputforge/dbx/codegen/DaoClassBuilder.java:25-65 | the implementation can be written exactly when every method can |
| DaoClassBuilders.SourceTextFirstError | processor/src/main/java/com/inputforge/dbx/codegen/DaoClassBuilder.java:59-61 | the exception is that of the first method that throws |
| DaoClassBuilders.AddingAMethodAppendsItsText | processor/src/main/java/com/inputforge/dbx/codegen/DaoClassBuilder.java:59-63 | adding a method keeps the text before the closing `}` and puts the new method's text there |
| DaoClassBuilders.SourceDeclaresCanonicalName | processor/src/main/java/com/inputforge/dbx/codegen/DaoClassBuilder.java:41-51 | the package line and `public class` name of the text give back the builder's canonical name |
| ClassSpecs.ClassSpec.PublicClass | processor/src/main/java/com/inputforge/dbx/codegen/ClassSpec.java:24-26 | `public`, the name, no parent, no interfaces, no methods, no constructors |
| ClassSpecs.ClassSpec.Extend | processor/src/main/java/com/inputforge/dbx/codegen/ClassSpec.java:33-36 | overwrites the parent; nothing else changes; returns the same object |
| ClassSpecs.ClassSpec.ExtendClass | processor/src/main/java/com/inputforge/dbx/codegen/ClassSpec.java:28-31 | the parent becomes the class's canonical name; nothing else changes |
| ClassSpecs.ClassSpec.Implement | processor/src/main/java/com/inputforge/dbx/codegen/ClassSpec.java:44-47 | replaces the whole interface list; nothing else changes |
| ClassSpecs.ClassSpec.ImplementClasses | processor/src/main/java/com/inputforge/dbx/codegen/ClassSpec.java:38-42 | the interface list becomes the classes' canonical names in order |
| ClassSpecs.ClassSpec.Method | processor/src/main/java/com/inputforge/dbx/codegen/ClassSpec.java:49-52 | appends one method at the end; returns the same object |
| ClassSpecs.ClassSpec.Constructor | processor/src/main/java/com/inputforge/dbx/codegen/ClassSpec.java:79-82 | appends one constructor at the end; returns the same object |
| ClassSpecs.ClassSpec.WriteHeader | processor/src/main/java/com/inputforge/dbx/codegen/ClassSpec.java:55-66 | appends exactly the header with its optional clauses |
| ClassSpecs.ClassSpec.Write | processor/src/main/java/com/inputforge/dbx/codegen/ClassSpec.java:54-77 | appends exactly `ClassText`, or returns the exception of the first method that throws |
| ClassSpecs.WriteConstructors | processor/src/main/java/com/inputforge/dbx/codegen/ClassSpec.java:68-70 | appends the constructors' texts in insertion order |
| ClassSpecs.HeaderSplits | processor/src/main/java/com/inputforge/dbx/codegen/ClassSpec.java:55-66 | the header opens with `accessModifier + " class " + name` and ends with ` {` and a blank line |
| ClassSpecs.ExtendsIffParent | processor/src/main/java/com/inputforge/dbx/codegen/ClassSpec.java:58-61 | ` extends ` follows the name exactly when a parent is set, and the parent follows it |
| ClassSpecs.ImplementsIffInterfaces | processor/src/main/java/com/inputforge/dbx/codegen/ClassSpec.java:62-65 | ` implements ` and the interfaces joined by `, ` appear exactly when the list is non-empty |
| ClassSpecs.ClassTextOkIff | processor/src/main/java/com/inputforge/dbx/codegen/ClassSpec.java:54-77 | the class can be written exactly when each of its methods can |
| ClassSpecs.AddingAConstructorInsertsIt | processor/src/main/java/com/inputforge/dbx/codegen/ClassSpec.java:68-70 | a new constructor's text goes after the earlier constructors and before every method |
| ClassSpecs.AddingAMethodAppendsIt | processor/src/main/java/com/inputforge/dbx/codegen/ClassSpec.java:72-76 | a new method's text goes right before the closing `}` and newline |
| JavaFileComposers.JavaFileComposer.WithPackage | processor/src/main/java/com/inputforge/dbx/codegen/JavaFileComposer.java:17-19 | the package, no imports, no classes; the package is a constant |
| JavaFileComposers.JavaFileComposer.AddImport | processor/src/main/java/com/inputforge/dbx/codegen/JavaFileComposer.java:21-24 | exactly the name at the end of the imports; the classes do not change |
| JavaFileComposers.JavaFileComposer.ImportClass | processor/src/main/java/com/inputforge/dbx/codegen/JavaFileComposer.java:26-29 | the class's canonical name at the end of the imports; the classes do not change |
| JavaFileComposers.JavaFileComposer.Declare | processor/src/main/java/com/inputforge/dbx/codegen/JavaFileComposer.java:31-34 | one class at the end of the list; the imports do not change |
| AnnotationProcessor.CompileFinished | processor/src/main/java/com/inputforge/dbx/DbxAnnotationProcessor.java:126-149 | non-methods are skipped; the loop goes through every member exactly when every descriptor is built, and then holds them in order |
| AnnotationProcessor.CompileStops | processor/src/main/java/com/inputforge/dbx/DbxAnnotationProcessor.java:131-148 | the first method that fails stops the loop: an `IllegalArgumentException` drops the interface with its message as last diagnostic; any other exception escapes |
| AnnotationProcessor.MissingQueryReported | processor/src/main/java/com/inputforge/dbx/DbxAnnotationProcessor.java:133-140 | a method without `@Query` that the loop reaches is reported |
| AnnotationProcessor.GeneratedOnlyForInterfaces | processor/src/main/java/com/inputforge/dbx/DbxAnnotationProcessor.java:98-159 | a non-interface gets one diagnostic and nothing else; an interface yields `<package>.<name>Impl` exactly when all descriptors are built and its text can be written |
| AnnotationProcessor.MissingQueryEscapes | processor/src/main/java/com/inputforge/dbx/DbxAnnotationProcessor.java:133-141 | a reached method without `@Query` whose types pass is reported, and its `NullPointerException` escapes |
| AnnotationProcessor.RegisteredIff | processor/src/main/java/com/inputforge/dbx/DbxAnnotationProcessor.java:29-32 | an element's name is in the map exactly when an element of that name yielded an implementation, mapped to that implementation |
| AnnotationProcessor.SkippedElementIsNeutral | processor/src/main/java/com/inputforge/dbx/DbxAnnotationProcessor.java:29-32 | a skipped element does not change the map, the files or the escape of its siblings |
| AnnotationProcessor.EscapedAt | processor/src/main/java/com/inputforge/dbx/DbxAnnotationProcessor.java:29-32 | once an exception escapes an element, the later elements are never processed |
| AnnotationProcessor.SwitchIsExactLookup | processor/src/main/java/com/inputforge/dbx/DbxAnnotationProcessor.java:80-91 | in any iteration order, the `switch` answers exactly the map's entry for a name and `Optional.empty()` otherwise |
| AnnotationProcessor.OneCasePerEntry | processor/src/main/java/com/inputforge/dbx/DbxAnnotationProcessor.java:81-88 | there are as many `case`s as map entries |
| AnnotationProcessor.FactoryResolvesGenerated | processor/src/main/java/com/inputforge/dbx/DbxAnnotationProcessor.java:80-91 | with the generated registry first, `DaoFactory` finds a registered interface's implementation; if no registry knows the name it finds nothing |
| AnnotationProcessor.WriteCases | processor/src/main/java/com/inputforge/dbx/DbxAnnotationProcessor.java:81-88 | the loop appends one `case` per entry, in some order of the keys that lists each key once |
| AnnotationProcessor.Processor.ProcessDaoInterface | processor/src/main/java/com/inputforge/dbx/DbxAnnotationProcessor.java:98-159 | the diagnostics, the file written and the result are those of `ProcessInterface`: the canonical name, empty, or the escaping exception |
| AnnotationProcessor.Processor.CompileInto | processor/src/main/java/com/inputforge/dbx/DbxAnnotationProcessor.java:126-149 | the member loop reports and fills the builder as `CompileMembers` says, and stops where it stops |
| AnnotationProcessor.Processor.CompileMember | processor/src/main/java/com/inputforge/dbx/DbxAnnotationProcessor.java:127-148 | one member: a method without `@Query` is reported, its descriptor is added, or the exception of `MethodSpec.from` stops the loop (an `IllegalArgumentException` reported), exactly as `CompileStep` says |
| AnnotationProcessor.Processor.WriteDaoRegistryImpl | processor/src/main/java/com/inputforge/dbx/DbxAnnotationProcessor.java:62-96 | one source file named after the registry, holding header, one `case` per entry in some iteration order, and the `default` |
| AnnotationProcessor.Processor.WriteDaoService | processor/src/main/java/com/inputforge/dbx/DbxAnnotationProcessor.java:52-60 | one resource at the service path holding `package + "." + className` |
| AnnotationProcessor.Processor.WriteDaoRegistry | processor/src/main/java/com/inputforge/dbx/DbxAnnotationProcessor.java:45-50 | the registry source and the service file use the same class name in `dbx.internal` |
| AnnotationProcessor.Processor.Process | processor/src/main/java/com/inputforge/dbx/DbxAnnotationProcessor.java:27-43 | returns `true` unless an exception escapes; no registry or service file when no interface succeeded, otherwise both, over the round's map |
| AnnotationProcessor.Processor.ProcessNext | processor/src/main/java/com/inputforge/dbx/DbxAnnotationProcessor.java:29-32 | one element: its implementation, if any, is put under the element's name, or its exception escapes, exactly as `ProcessElements` says one element further |
| ResultSetMappers.ReadColumn | runtime/src/main/java/com/inputforge/dbx/ResultSetMapper.java:14 | the value of 1-based column `columnIndex` of the row, or `SQLException` |
| ResultSetMappers.ColumnValuesByRow | runtime/src/main/java/com/inputforge/dbx/ResultSetMapper.java:11-17 | one element per row, in row order, each read from `columnIndex`; it succeeds exactly when every row can be read |
| ResultSetMappers.ColumnValuesFailure | runtime/src/main/java/com/inputforge/dbx/ResultSetMapper.java:11-17 | a failure is an `SQLException` and no partial list is returned |
| ResultSetMappers.ColumnValuesSnoc | runtime/src/main/java/com/inputforge/dbx/ResultSetMapper.java:13-15 | reading one more row extends the list with that row's value |
| ResultSetMappers.ElementsOfColumn | runtime/src/main/java/com/inputforge/dbx/ResultSetMapper.java:19-25 | the set holds exactly the values read from the rows, and has no more elements than rows |
| ResultSetMappers.DuplicateRowsCollapse | runtime/src/main/java/com/inputforge/dbx/ResultSetMapper.java:19-25 | a repeated row lengthens the list but leaves the set as it is |
| ResultSetMappers.ResultSet.Next | runtime/src/main/java/com/inputforge/dbx/ResultSetMapper.java:13 | true exactly while rows remain, moving onto the next row |
| ResultSetMappers.ResultSet.GetObject | runtime/src/main/java/com/inputforge/dbx/ResultSetMapper.java:14 | reads the column of the current row |
| ResultSetMappers.MapToList | runtime/src/main/java/com/inputforge/dbx/ResultSetMapper.java:11-17 | the column of every remaining row, in order, or the first failure; on success the cursor is exhausted |
| ResultSetMappers.MapToSet | runtime/src/main/java/com/inputforge/dbx/ResultSetMapper.java:19-25 | the set of the column's values of every remaining row, or the first failure; on success the cursor is exhausted |
| DaoFactories.FirstHitIsFirst | runtime/src/main/java/com/inputforge/dbx/DaoFactory.java:11-16 | an answer exactly when some registry answers, and it is the first such registry's answer |
| DaoFactories.LaterRegistriesIgnored | runtime/src/main/java/com/inputforge/dbx/DaoFactory.java:13-14 | registries after the first that answers make no difference |
| DaoFactories.Create | runtime/src/main/java/com/inputforge/dbx/DaoFactory.java:8-19 | the first registry's answer, asked with the caller's class and connection; otherwise `IllegalArgumentException("Dao not found: " + name)` |

## Left out

- ClassSpecs.ClassSpec.ExtendClass, ClassSpecs.ClassSpec.ImplementClasses: a class is modelled by its canonical name as a string. `Class.getCanonicalName()` returns `null` for local and anonymous classes; the source would then keep no parent (no ` extends ` clause) or write `null` into the implements list. That case is not modelled.
- **Compiler plumbing.** `Filer`, `Messager` and `ProcessingEnvironment` are I/O. Files are modelled as (name, text) pairs in the processor's `sourceFiles` and `resources`. Diagnostics are a list of messages without the element they point at. `IOException` from the filer is not modelled.
- **Duplicate source files.** Creating a second source file with the same name (a `FilerException`) is not modelled.
- **Type mirrors.** A type mirror is a small datatype: primitive, `void`, array, or a declared type with arguments. Wildcards, type variables and annotations on types are not modelled.
- **Nested interfaces.** For a nested interface, `toString()` is `Outer.Inner` while `Class.getName()` is `Outer$Inner`. The model keys the registry by the element's `toString()`, as the source does, and does not model `getName()`.
- **Debug output.** The `System.out.println` at `MethodSpec.java:107` is debug output and is not modelled.
- **The registry name suffix.** The registry class name's suffix comes from `System.currentTimeMillis()` and is a parameter.
- **HashMap order.** The map's iteration order is unspecified. It is modelled as any order that lists each key once, and every registry property is stated for all such orders.
- **ServiceLoader.** Registry discovery is a given sequence of registries. A registry is a function from name and connection to an optional implementation. `DaoRegistry.java` is only that function type.
- **JDBC.** `getObject`'s type conversion is a cell that holds a value or cannot be converted. Resource closing is not modelled.
- **The dead `JavaFileComposer` value.** The value built at `DaoClassBuilder.java:31-36` is never written, and its `constructor(String, String)` call matches no `ClassSpec` method. It is not modelled.
- **ConstructorSpec.** It is not part of this model. A constructor is only the text its `write` appends.
- **Getters.** `ParameterSpec.getName` and `getSqlType` are the datatype's fields, so they return the constructor's values by construction.
- ResultSetMappers.ResultSet.Next: when the rows run out the cursor stays on the last row instead of moving after it. Only `mapToList` and `mapToSet` use the cursor, and they never read after a `false`.
- ResultSetMappers.MapToList: on a failure the cursor's position is not stated. Neither is it for `MapToSet`.
- AnnotationProcessor.Processor.ProcessDaoInterface: when writing the class throws, the partially written source file is recorded but its content is not stated.
- AnnotationProcessor.Processor.Process: when an exception escapes, the diagnostics and files written up to then are not stated.
- **The sample entity.** `User.java` is sample data and is not modelled.
