/** The part of `javax.lang.model.type.TypeMirror` the generator looks at: the
    kind of a type, its element name, its type arguments and its text. */
module JavaTypes {

  import Text

  datatype Primitive = Boolean | Byte | Short | Int | Long | Char | Float | Double

  /** The keyword that names a primitive type. */
  function PrimitiveName(p: Primitive): string
  {
    match p
    case Boolean => "boolean"
    case Byte => "byte"
    case Short => "short"
    case Int => "int"
    case Long => "long"
    case Char => "char"
    case Float => "float"
    case Double => "double"
  }

  /** A type as the compiler presents it. `DeclaredType` is a class or interface
      type, with its type arguments; `ArrayType` stands for the reference
      types that are not declared types. */
  datatype JType =
    | PrimitiveType(kind: Primitive)
    | VoidType
    | DeclaredType(element: string, args: seq<JType>)
    | ArrayType(component: JType)

  /** `TypeMirror.toString()` as javac renders it: type arguments in angle
      brackets, separated by a comma without a space. */
  function TypeText(t: JType): string
  {
    match t
    case PrimitiveType(p) => PrimitiveName(p)
    case VoidType => "void"
    case DeclaredType(e, args) =>
      if args == [] then e
      else e + "<" + Text.Join(seq(|args|, i requires 0 <= i < |args| => TypeText(args[i])), ",") + ">"
    case ArrayType(c) => TypeText(c) + "[]"
  }

  /** The text of a parameterized type ends with `>`, that of an array type
      with `]`, and that of a raw declared type is its element name. */
  lemma TypeTextEnding(t: JType)
    ensures t.DeclaredType? && t.args != [] ==> |TypeText(t)| > 0 && TypeText(t)[|TypeText(t)| - 1] == '>'
    ensures t.ArrayType? ==> |TypeText(t)| > 0 && TypeText(t)[|TypeText(t)| - 1] == ']'
    ensures t.DeclaredType? && t.args == [] ==> TypeText(t) == t.element
  {
  }
}
