/** The kinds of interchange elements and of HIR symbols, and the conversions between them.
    Element kinds are grouped by the classes the model code tests for: memberships, the other
    relationships, usages, features that are not usages, definitions, and everything else. */
module ElementKinds {

  datatype MembershipKind =
    | OwningMembership | FeatureMembership | ReturnParameterMembership | ParameterMembership
    | EndFeatureMembership | ResultExpressionMembership

  datatype RelationKind =
    | Membership | Import | NamespaceImport | MembershipImport | Specialization | FeatureTyping | Subsetting
    | ReferenceSubsetting | CrossSubsetting | Redefinition | Conjugation | FeatureValue | FeatureChaining
    | FeatureInverting | Intersecting | Disjoining | Unioning | Dependency | RequirementConstraintMembership
    | Verification | Annotation

  datatype UsageKind =
    | PartUsage | ItemUsage | ActionUsage | PerformActionUsage | PortUsage | AttributeUsage | ConnectionUsage
    | InterfaceUsage | AllocationUsage | RequirementUsage | Satisfaction | ConstraintUsage
    | AssertConstraintUsage | StateUsage | ExhibitStateUsage | TransitionUsage | CalculationUsage
    | ReferenceUsage | OccurrenceUsage | UseCaseUsage | IncludeUseCaseUsage | AnalysisCaseUsage
    | VerificationCaseUsage | FlowConnectionUsage | SuccessionFlowConnectionUsage | Feature | Step | Expression
    | BooleanExpression | Invariant

  datatype FeatureKind =
    | Connector | BindingConnector | Succession | Flow | MultiplicityRange | LiteralInteger | LiteralReal
    | LiteralInfinity | LiteralBoolean | LiteralString | NullExpression | FeatureReferenceExpression
    | OperatorExpression | InvocationExpression | FeatureChainExpression | ConstructorExpression

  datatype DefinitionKind =
    | Package | LibraryPackage | Class | DataType | Structure | Association | AssociationStructure | Interaction
    | Behavior | Function | Predicate | PartDefinition | ItemDefinition | ActionDefinition | PortDefinition
    | AttributeDefinition | ConnectionDefinition | InterfaceDefinition | AllocationDefinition
    | RequirementDefinition | ConstraintDefinition | StateDefinition | CalculationDefinition
    | OccurrenceDefinition | UseCaseDefinition | AnalysisCaseDefinition | VerificationCaseDefinition
    | ConcernDefinition | ViewDefinition | ViewpointDefinition | RenderingDefinition | EnumerationDefinition
    | MetadataDefinition

  datatype GeneralKind =
    | Namespace | Comment | Documentation | TextualRepresentation | Alias | MetadataUsage | AnnotatingElement
    | Classifier | Metaclass | Other

  datatype ElementKind =
    | Member(member: MembershipKind)
    | Relation(relation: RelationKind)
    | Usage(usage: UsageKind)
    | FeatureOnly(feature: FeatureKind)
    | Definition(definition: DefinitionKind)
    | General(general: GeneralKind)
  {
    predicate IsRelationship() { Member? || Relation? }

    predicate IsMembership() { Member? }

    predicate IsFeatureKind() { Usage? || FeatureOnly? }

    /** Content elements are the ones that a membership wraps. */
    predicate IsContent() { !IsRelationship() }
  }

  function MembershipKindFor(child: ElementKind): ElementKind {
    if child.IsFeatureKind() then Member(FeatureMembership) else Member(OwningMembership)
  }

  /** Symbol kinds, grouped in the same way. */
  datatype DefinitionSymbol =
    | SymPackage | SymPartDefinition | SymItemDefinition | SymActionDefinition | SymPortDefinition
    | SymAttributeDefinition | SymConnectionDefinition | SymInterfaceDefinition | SymAllocationDefinition
    | SymRequirementDefinition | SymConstraintDefinition | SymStateDefinition | SymCalculationDefinition
    | SymOccurrenceDefinition | SymUseCaseDefinition | SymAnalysisCaseDefinition
    | SymVerificationCaseDefinition | SymConcernDefinition | SymViewDefinition | SymViewpointDefinition
    | SymRenderingDefinition | SymEnumerationDefinition | SymMetadataDefinition | SymInteraction | SymDataType
    | SymClass | SymStructure | SymBehavior | SymFunction | SymAssociation

  datatype UsageSymbol =
    | SymViewUsage | SymViewpointUsage | SymRenderingUsage | SymPartUsage | SymItemUsage | SymActionUsage
    | SymPerformActionUsage | SymPortUsage | SymAttributeUsage | SymConnectionUsage | SymInterfaceUsage
    | SymAllocationUsage | SymRequirementUsage | SymSatisfyRequirementUsage | SymConstraintUsage
    | SymAssertConstraintUsage | SymStateUsage | SymExhibitStateUsage | SymTransitionUsage
    | SymCalculationUsage | SymReferenceUsage | SymOccurrenceUsage | SymUseCaseUsage | SymIncludeUseCaseUsage
    | SymAnalysisCaseUsage | SymVerificationCaseUsage | SymFlowConnectionUsage | SymSuccessionUsage

  datatype SymbolKind =
    | SymDefinition(definition: DefinitionSymbol)
    | SymUsage(usage: UsageSymbol)
    | SymExposeRelationship | SymImport | SymAlias | SymComment | SymDependency | SymOther

  function DefinitionOf(kind: DefinitionSymbol): DefinitionKind {
    match kind
    case SymPackage => Package
    case SymPartDefinition => PartDefinition
    case SymItemDefinition => ItemDefinition
    case SymActionDefinition => ActionDefinition
    case SymPortDefinition => PortDefinition
    case SymAttributeDefinition => AttributeDefinition
    case SymConnectionDefinition => ConnectionDefinition
    case SymInterfaceDefinition => InterfaceDefinition
    case SymAllocationDefinition => AllocationDefinition
    case SymRequirementDefinition => RequirementDefinition
    case SymConstraintDefinition => ConstraintDefinition
    case SymStateDefinition => StateDefinition
    case SymCalculationDefinition => CalculationDefinition
    case SymOccurrenceDefinition => OccurrenceDefinition
    case SymUseCaseDefinition => UseCaseDefinition
    case SymAnalysisCaseDefinition => AnalysisCaseDefinition
    case SymVerificationCaseDefinition => VerificationCaseDefinition
    case SymConcernDefinition => ConcernDefinition
    case SymViewDefinition => ViewDefinition
    case SymViewpointDefinition => ViewpointDefinition
    case SymRenderingDefinition => RenderingDefinition
    case SymEnumerationDefinition => EnumerationDefinition
    case SymMetadataDefinition => MetadataDefinition
    case SymInteraction => Interaction
    case SymDataType => DataType
    case SymClass => Class
    case SymStructure => Structure
    case SymBehavior => Behavior
    case SymFunction => Function
    case SymAssociation => Association
  }

  function UsageOf(kind: UsageSymbol): ElementKind {
    match kind
    case SymPartUsage => Usage(PartUsage)
    case SymItemUsage => Usage(ItemUsage)
    case SymActionUsage => Usage(ActionUsage)
    case SymPerformActionUsage => Usage(PerformActionUsage)
    case SymPortUsage => Usage(PortUsage)
    case SymAttributeUsage => Usage(AttributeUsage)
    case SymConnectionUsage => Usage(ConnectionUsage)
    case SymInterfaceUsage => Usage(InterfaceUsage)
    case SymAllocationUsage => Usage(AllocationUsage)
    case SymRequirementUsage => Usage(RequirementUsage)
    case SymSatisfyRequirementUsage => Usage(Satisfaction)
    case SymConstraintUsage => Usage(ConstraintUsage)
    case SymAssertConstraintUsage => Usage(AssertConstraintUsage)
    case SymStateUsage => Usage(StateUsage)
    case SymExhibitStateUsage => Usage(ExhibitStateUsage)
    case SymTransitionUsage => Usage(TransitionUsage)
    case SymCalculationUsage => Usage(CalculationUsage)
    case SymReferenceUsage => Usage(ReferenceUsage)
    case SymOccurrenceUsage => Usage(OccurrenceUsage)
    case SymUseCaseUsage => Usage(UseCaseUsage)
    case SymIncludeUseCaseUsage => Usage(IncludeUseCaseUsage)
    case SymAnalysisCaseUsage => Usage(AnalysisCaseUsage)
    case SymVerificationCaseUsage => Usage(VerificationCaseUsage)
    case SymFlowConnectionUsage => Usage(FlowConnectionUsage)
    case _ => General(Other)
  }

  function ElementKindOf(kind: SymbolKind): ElementKind {
    match kind
    case SymDefinition(d) => Definition(DefinitionOf(d))
    case SymUsage(u) => UsageOf(u)
    case SymImport => Relation(Import)
    case SymAlias => General(Alias)
    case SymComment => General(Comment)
    case _ => General(Other)
  }

  function SymbolOfRelation(relation: RelationKind): SymbolKind {
    match relation
    case Import => SymImport
    case NamespaceImport => SymImport
    case MembershipImport => SymImport
    case _ => SymOther
  }

  function SymbolOfUsage(usage: UsageKind): SymbolKind {
    match usage
    case PartUsage => SymUsage(SymPartUsage)
    case ItemUsage => SymUsage(SymItemUsage)
    case ActionUsage => SymUsage(SymActionUsage)
    case PerformActionUsage => SymUsage(SymPerformActionUsage)
    case PortUsage => SymUsage(SymPortUsage)
    case AttributeUsage => SymUsage(SymAttributeUsage)
    case ConnectionUsage => SymUsage(SymConnectionUsage)
    case InterfaceUsage => SymUsage(SymInterfaceUsage)
    case AllocationUsage => SymUsage(SymAllocationUsage)
    case RequirementUsage => SymUsage(SymRequirementUsage)
    case Satisfaction => SymUsage(SymSatisfyRequirementUsage)
    case ConstraintUsage => SymUsage(SymConstraintUsage)
    case AssertConstraintUsage => SymUsage(SymAssertConstraintUsage)
    case StateUsage => SymUsage(SymStateUsage)
    case ExhibitStateUsage => SymUsage(SymExhibitStateUsage)
    case TransitionUsage => SymUsage(SymTransitionUsage)
    case CalculationUsage => SymUsage(SymCalculationUsage)
    case ReferenceUsage => SymUsage(SymReferenceUsage)
    case OccurrenceUsage => SymUsage(SymOccurrenceUsage)
    case UseCaseUsage => SymUsage(SymUseCaseUsage)
    case IncludeUseCaseUsage => SymUsage(SymIncludeUseCaseUsage)
    case AnalysisCaseUsage => SymUsage(SymAnalysisCaseUsage)
    case VerificationCaseUsage => SymUsage(SymVerificationCaseUsage)
    case FlowConnectionUsage => SymUsage(SymFlowConnectionUsage)
    case _ => SymOther
  }

  function SymbolOfDefinition(definition: DefinitionKind): SymbolKind {
    match definition
    case Package => SymDefinition(SymPackage)
    case LibraryPackage => SymDefinition(SymPackage)
    case Class => SymDefinition(SymClass)
    case DataType => SymDefinition(SymDataType)
    case Structure => SymDefinition(SymStructure)
    case Association => SymDefinition(SymAssociation)
    case AssociationStructure => SymDefinition(SymAssociation)
    case Interaction => SymDefinition(SymInteraction)
    case Behavior => SymDefinition(SymBehavior)
    case Function => SymDefinition(SymFunction)
    case PartDefinition => SymDefinition(SymPartDefinition)
    case ItemDefinition => SymDefinition(SymItemDefinition)
    case ActionDefinition => SymDefinition(SymActionDefinition)
    case PortDefinition => SymDefinition(SymPortDefinition)
    case AttributeDefinition => SymDefinition(SymAttributeDefinition)
    case ConnectionDefinition => SymDefinition(SymConnectionDefinition)
    case InterfaceDefinition => SymDefinition(SymInterfaceDefinition)
    case AllocationDefinition => SymDefinition(SymAllocationDefinition)
    case RequirementDefinition => SymDefinition(SymRequirementDefinition)
    case ConstraintDefinition => SymDefinition(SymConstraintDefinition)
    case StateDefinition => SymDefinition(SymStateDefinition)
    case CalculationDefinition => SymDefinition(SymCalculationDefinition)
    case OccurrenceDefinition => SymDefinition(SymOccurrenceDefinition)
    case UseCaseDefinition => SymDefinition(SymUseCaseDefinition)
    case AnalysisCaseDefinition => SymDefinition(SymAnalysisCaseDefinition)
    case VerificationCaseDefinition => SymDefinition(SymVerificationCaseDefinition)
    case ConcernDefinition => SymDefinition(SymConcernDefinition)
    case ViewDefinition => SymDefinition(SymViewDefinition)
    case ViewpointDefinition => SymDefinition(SymViewpointDefinition)
    case RenderingDefinition => SymDefinition(SymRenderingDefinition)
    case EnumerationDefinition => SymDefinition(SymEnumerationDefinition)
    case MetadataDefinition => SymDefinition(SymMetadataDefinition)
    case _ => SymOther
  }

  function SymbolOfGeneral(general: GeneralKind): SymbolKind {
    match general
    case Comment => SymComment
    case Documentation => SymComment
    case _ => SymOther
  }

  function SymbolKindOf(kind: ElementKind): SymbolKind {
    match kind
    case Relation(r) => SymbolOfRelation(r)
    case Usage(u) => SymbolOfUsage(u)
    case Definition(d) => SymbolOfDefinition(d)
    case General(g) => SymbolOfGeneral(g)
    case _ => SymOther
  }

  /** The symbol kinds that come back as a different kind. */
  predicate IsFoldedKind(kind: SymbolKind) {
    match kind
    case SymUsage(u) => u.SymViewUsage? || u.SymViewpointUsage? || u.SymRenderingUsage? || u.SymSuccessionUsage?
    case SymDefinition(_) => false
    case _ => kind.SymExposeRelationship? || kind.SymAlias? || kind.SymDependency?
  }

  lemma DefinitionRoundTrip(d: DefinitionSymbol)
    ensures SymbolOfDefinition(DefinitionOf(d)) == SymDefinition(d)
  {
  }

  lemma UsageRoundTrip(u: UsageSymbol)
    ensures SymbolKindOf(UsageOf(u)) == SymUsage(u) <==> !IsFoldedKind(SymUsage(u))
  {
    hide SymbolOfDefinition, SymbolOfRelation;
  }

  /** Converting a symbol kind to an element kind and back is the identity exactly outside the folded kinds. */
  lemma KindConversion(kind: SymbolKind)
    ensures SymbolKindOf(ElementKindOf(kind)) == kind <==> !IsFoldedKind(kind)
  {
    match kind
    case SymDefinition(d) => DefinitionRoundTrip(d);
    case SymUsage(u) => UsageRoundTrip(u);
    case _ =>
  }

  lemma DefinitionReturns(d: DefinitionKind)
    requires SymbolOfDefinition(d) != SymOther && d != LibraryPackage && d != AssociationStructure
    ensures ElementKindOf(SymbolOfDefinition(d)) == Definition(d)
  {
  }

  lemma UsageReturns(u: UsageKind)
    requires SymbolOfUsage(u) != SymOther
    ensures ElementKindOf(SymbolOfUsage(u)) == Usage(u)
  {
  }

  /** The other way round: an element kind is read as no particular symbol kind, or as one that is written as that
      element kind again, apart from five that are read as a more general one. */
  lemma ElementConversion(kind: ElementKind)
    ensures var symbol := SymbolKindOf(kind);
      match kind
      case Definition(LibraryPackage) => symbol == SymDefinition(SymPackage)
      case Definition(AssociationStructure) => symbol == SymDefinition(SymAssociation)
      case Relation(NamespaceImport) => symbol == SymImport
      case Relation(MembershipImport) => symbol == SymImport
      case General(Documentation) => symbol == SymComment
      case _ => symbol == SymOther || ElementKindOf(symbol) == kind
  {
    hide DefinitionOf, UsageOf, SymbolOfUsage, SymbolOfDefinition;
    match kind
    case Definition(d) => DefinitionConverts(d);
    case Usage(u) =>
      if SymbolOfUsage(u) != SymOther {
        UsageReturns(u);
      }
    case _ =>
  }

  lemma DefinitionConverts(d: DefinitionKind)
    ensures var symbol := SymbolOfDefinition(d);
      if d == LibraryPackage then symbol == SymDefinition(SymPackage)
      else if d == AssociationStructure then symbol == SymDefinition(SymAssociation)
      else symbol == SymOther || ElementKindOf(symbol) == Definition(d)
  {
    if SymbolOfDefinition(d) != SymOther && d != LibraryPackage && d != AssociationStructure {
      DefinitionReturns(d);
    }
  }

  /** Import symbols are the only ones that become relationship elements. */
  lemma SymbolElementIsContent(kind: SymbolKind)
    ensures ElementKindOf(kind).IsContent() <==> kind != SymImport
  {
  }
}
