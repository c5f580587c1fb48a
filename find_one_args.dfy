/**
 * The find-one arguments declaration that the code generator emits for an
 * entity: an `@ArgsType()` class with a single required property `where`,
 * typed as the entity's where-unique input and carrying, in this order,
 * `@ApiProperty({required: true, type: () => T})`, `@ValidateNested()`,
 * `@Type(() => T)` and `@Field(() => T, {nullable: false})`.
 *
 * Declarations are trees: decorators are an ordered list of tagged
 * annotation records, so their order is part of the value.
 */
module FindOneArgs {
  import opened Wrappers

  /** A decorator, tagged by the framework concern it serves. */
  datatype Annotation =
    | ArgsType                                  // @ArgsType(): a GraphQL arguments class
    | ApiProperty(required: bool, apiType: string) // @ApiProperty({required, type: () => apiType})
    | ValidateNested                            // @ValidateNested(): validate the nested input
    | TypeHint(target: string)                  // @Type(() => target): the nested input's class
    | Field(fieldType: string, nullable: bool)  // @Field(() => fieldType, {nullable})

  /** The tags of `Annotation`, for stating order. */
  datatype AnnotationKind = ApiPropertyKind | ValidateNestedKind | TypeHintKind | FieldKind | ArgsTypeKind

  datatype Identifier = Identifier(name: string)

  /** A class property: `definite` is the `!` of `where!: T`. */
  datatype Property = Property(name: string, definite: bool, typeName: string, annotations: seq<Annotation>)

  /** A named class declaration with its class decorators and its properties. */
  datatype ClassDeclaration = ClassDeclaration(annotations: seq<Annotation>, id: Identifier, properties: seq<Property>)

  /** The parts of an entity that name it. */
  datatype Entity = Entity(id: string, name: string, displayName: string, pluralName: string, pluralDisplayName: string)

  const WhereName := "where"

  function KindOf(a: Annotation): AnnotationKind {
    match a
    case ArgsType => ArgsTypeKind
    case ApiProperty(_, _) => ApiPropertyKind
    case ValidateNested => ValidateNestedKind
    case TypeHint(_) => TypeHintKind
    case Field(_, _) => FieldKind
  }

  /** The tags of `anns`, in order. */
  function Kinds(anns: seq<Annotation>): (ks: seq<AnnotationKind>)
    ensures |ks| == |anns|
    ensures forall i :: 0 <= i < |anns| ==> ks[i] == KindOf(anns[i])
  {
    if anns == [] then [] else [KindOf(anns[0])] + Kinds(anns[1..])
  }

  /** The type names an annotation refers to. */
  function AnnotationTypes(a: Annotation): set<string> {
    match a
    case ApiProperty(_, t) => {t}
    case TypeHint(t) => {t}
    case Field(t, _) => {t}
    case _ => {}
  }

  /** Every type name a property mentions: its declared type and those inside its decorators. */
  function ReferencedTypes(p: Property): set<string> {
    {p.typeName} + set i, t | 0 <= i < |p.annotations| && t in AnnotationTypes(p.annotations[i]) :: t
  }

  /** The decorators of the `where` property, all referring to `whereType`. */
  function WhereAnnotations(whereType: string): seq<Annotation> {
    [ApiProperty(true, whereType), ValidateNested, TypeHint(whereType), Field(whereType, false)]
  }

  /** The declaration named `argsName` whose one property `where` has type `whereType`. */
  function FindOneArgsDeclaration(argsName: string, whereType: string): (d: ClassDeclaration)
    ensures d.id.name == argsName
    ensures |d.properties| == 1 && d.properties[0].typeName == whereType
  {
    ClassDeclaration([ArgsType], Identifier(argsName),
      [Property(WhereName, true, whereType, WhereAnnotations(whereType))])
  }

  /**
   * `createFindOneArgs(entity, whereUniqueInput)`. The class name is
   * `createFindOneArgsId(entity.name).name`; that naming function is not
   * shown, so it is the parameter `findOneArgsId`.
   */
  function CreateFindOneArgs(entity: Entity, whereUniqueInput: ClassDeclaration, findOneArgsId: string -> Identifier): (d: ClassDeclaration)
    ensures d.annotations == [ArgsType]
    ensures d.id == findOneArgsId(entity.name)
    ensures |d.properties| == 1
    ensures d.properties[0].name == WhereName && d.properties[0].definite
    ensures d.properties[0].typeName == whereUniqueInput.id.name
  {
    FindOneArgsDeclaration(findOneArgsId(entity.name).name, whereUniqueInput.id.name)
  }

  /**
   * Recognises exactly the shape the generator's test pins; it is the
   * builder's partner, not a part of the generator. A declaration has that
   * shape when it carries exactly the class decorator `@ArgsType()` and
   * exactly one definite property `where`, whose decorators are, position
   * by position, a required `ApiProperty`, `ValidateNested`, `Type` and a
   * non-nullable `Field`, all naming the property's type. The result is
   * the class name and that type.
   */
  function ParseFindOneArgs(d: ClassDeclaration): Option<(string, string)> {
    if d.annotations != [ArgsType] || |d.properties| != 1 then None
    else
      var p := d.properties[0];
      var anns := p.annotations;
      if p.name != WhereName || !p.definite || |anns| != 4 then None
      else if !(anns[0].ApiProperty? && anns[0].required && anns[0].apiType == p.typeName) then None
      else if !anns[1].ValidateNested? then None
      else if !(anns[2].TypeHint? && anns[2].target == p.typeName) then None
      else if !(anns[3].Field? && !anns[3].nullable && anns[3].fieldType == p.typeName) then None
      else Some((d.id.name, p.typeName))
  }

  // ---------------------------------------------------------------------
  // What the generator's test pins

  /** The `where` property: every type it mentions is the where-unique input's name. */
  lemma WhereReferencesOnlyInput(entity: Entity, whereUniqueInput: ClassDeclaration, findOneArgsId: string -> Identifier)
    ensures ReferencedTypes(CreateFindOneArgs(entity, whereUniqueInput, findOneArgsId).properties[0]) == {whereUniqueInput.id.name}
  {
    var p := CreateFindOneArgs(entity, whereUniqueInput, findOneArgsId).properties[0];
    var t := whereUniqueInput.id.name;
    assert AnnotationTypes(p.annotations[0]) == {t};
    forall u | u in ReferencedTypes(p) ensures u == t {
    }
  }

  /** The four decorators come in the fixed order `ApiProperty`, `ValidateNested`, `Type`, `Field`. */
  lemma WhereDecoratorOrder(entity: Entity, whereUniqueInput: ClassDeclaration, findOneArgsId: string -> Identifier)
    ensures Kinds(CreateFindOneArgs(entity, whereUniqueInput, findOneArgsId).properties[0].annotations)
         == [ApiPropertyKind, ValidateNestedKind, TypeHintKind, FieldKind]
  {
  }

  /** `ApiProperty` declares the argument required and `Field` declares it non-nullable. */
  lemma WhereRequiredAndNonNullable(entity: Entity, whereUniqueInput: ClassDeclaration, findOneArgsId: string -> Identifier)
    ensures var anns := CreateFindOneArgs(entity, whereUniqueInput, findOneArgsId).properties[0].annotations;
      && (forall i :: 0 <= i < |anns| && anns[i].ApiProperty? ==> anns[i].required)
      && (forall i :: 0 <= i < |anns| && anns[i].Field? ==> !anns[i].nullable)
  {
  }

  /** Only the entity's name and the input's id enter the declaration. */
  lemma CreateFindOneArgsDependsOnNames(
    e1: Entity, w1: ClassDeclaration, e2: Entity, w2: ClassDeclaration, findOneArgsId: string -> Identifier)
    requires e1.name == e2.name && w1.id == w2.id
    ensures CreateFindOneArgs(e1, w1, findOneArgsId) == CreateFindOneArgs(e2, w2, findOneArgsId)
  {
  }

  // ---------------------------------------------------------------------
  // The builder and the positional reader are inverse

  /** Reading back a built declaration recovers its class name and its where type. */
  lemma ParseBuilt(entity: Entity, whereUniqueInput: ClassDeclaration, findOneArgsId: string -> Identifier)
    ensures ParseFindOneArgs(CreateFindOneArgs(entity, whereUniqueInput, findOneArgsId))
         == Some((findOneArgsId(entity.name).name, whereUniqueInput.id.name))
  {
  }

  /** Any declaration the reader accepts is exactly the one the builder emits for its names. */
  lemma ParsedIsBuilt(d: ClassDeclaration)
    requires ParseFindOneArgs(d).Some?
    ensures var (argsName, whereType) := ParseFindOneArgs(d).value;
      d == FindOneArgsDeclaration(argsName, whereType)
  {
    var p := d.properties[0];
    var anns := p.annotations;
    assert anns == WhereAnnotations(p.typeName) by {
      assert anns[0] == ApiProperty(true, p.typeName);
      assert anns[2] == TypeHint(p.typeName);
      assert anns[3] == Field(p.typeName, false);
    }
    assert d.properties == [p];
  }
}
