/**
 * The taxonomy part of the product listing query: the operator overrides
 * for category, tag and attribute clauses and the catalog-visibility
 * clause that `Products::prepare_objects_query` adds to the query built
 * by the parent controller.
 */
module TaxQuery {
  import opened Wrappers

  const CategoryTaxonomy := "product_cat"
  const TagTaxonomy := "product_tag"
  const VisibilityTaxonomy := "product_visibility"
  const ExcludeFromCatalog := "exclude-from-catalog"
  const ExcludeFromSearch := "exclude-from-search"

  /** A term named by a clause: by id (as the parent controller does) or by name. */
  datatype Term = TermId(id: int) | TermName(name: string)

  /**
   * One entry of `tax_query`. The parent controller's clauses carry no
   * `operator` and no `include_children` key; those are `None` here.
   */
  datatype Clause = Clause(
    taxonomy: string,
    field: string,
    terms: seq<Term>,
    operator: Option<string>,
    includeChildren: Option<bool>)

  /** The values `in`, `not_in` and `and` of the three operator parameters. */
  datatype OperatorParam = In | NotIn | And

  /** The values of the `catalog_visibility` parameter. */
  datatype Visibility = Any | Visible | Catalog | Search | Hidden

  /**
   * The request parameters the translation reads. An operator parameter
   * that is absent or that the operator mapping does not know is `None`:
   * its lookup yields nothing and its pass is skipped.
   */
  datatype FilterRequest = FilterRequest(
    categoryOperator: Option<OperatorParam>,
    tagOperator: Option<OperatorParam>,
    attributeOperator: Option<OperatorParam>,
    catalogVisibility: Option<Visibility>)

  /** The operator mapping: in to IN, not_in to NOT IN, and to AND. */
  function OperatorName(op: OperatorParam): (name: string)
    ensures name == "IN" || name == "NOT IN" || name == "AND"
    ensures name == "AND" <==> op == And
    ensures name == "IN" <==> op == In
  {
    match op
    case In => "IN"
    case NotIn => "NOT IN"
    case And => "AND"
  }

  /** The keys of the platform's product visibility options. */
  const VisibilityOptionKeys: set<Visibility> := {Visible, Catalog, Search, Hidden}

  /** True when the request's catalog visibility is one of the option keys. */
  predicate AppendsVisibility(request: FilterRequest): (r: bool)
    ensures r <==> request.catalogVisibility.Some? && request.catalogVisibility.value != Any
  {
    request.catalogVisibility.Some? &&
    var v := request.catalogVisibility.value;
    assert v in VisibilityOptionKeys <==> v.Visible? || v.Catalog? || v.Search? || v.Hidden?;
    v in VisibilityOptionKeys
  }

  /** The clause appended for a catalog visibility value. */
  function VisibilityClause(v: Visibility): (c: Clause)
    requires v in VisibilityOptionKeys
    ensures c.taxonomy == VisibilityTaxonomy && c.field == "name" && c.includeChildren == None
    ensures c.operator == Some("AND") || c.operator == Some("NOT IN")
    ensures c.operator == Some("AND") <==> v == Hidden
    ensures |c.terms| == 2
    ensures c.terms[0] == TermName("") || c.terms[0] == TermName(ExcludeFromCatalog)
    ensures c.terms[0] == TermName("") <==> v == Search
    ensures c.terms[1] == TermName("") || c.terms[1] == TermName(ExcludeFromSearch)
    ensures c.terms[1] == TermName("") <==> v == Catalog
  {
    var excludeFromCatalog := if v == Search then "" else ExcludeFromCatalog;
    var excludeFromSearch := if v == Catalog then "" else ExcludeFromSearch;
    Clause(VisibilityTaxonomy, "name", [TermName(excludeFromCatalog), TermName(excludeFromSearch)],
           Some(if v == Hidden then "AND" else "NOT IN"), None)
  }

  /**
   * How the platform's taxonomy query reads a clause against the terms a
   * product carries: IN (the default when no operator is given) needs one
   * of the clause's terms, NOT IN none of them, AND all of them.
   */
  predicate ClauseSelects(c: Clause, productTerms: set<Term>)
  {
    if c.operator == None || c.operator == Some("IN") then
      exists t :: t in c.terms && t in productTerms
    else if c.operator == Some("NOT IN") then
      forall t :: t in c.terms ==> t !in productTerms
    else if c.operator == Some("AND") then
      forall t :: t in c.terms ==> t in productTerms
    else
      false
  }

  /**
   * What the visibility clause selects: `visible` keeps the products shown
   * in both catalog and search, `catalog` those shown in the catalog,
   * `search` those shown in search, and `hidden` those excluded from both.
   * Term names are never empty, so the empty placeholder term matches nothing.
   */
  lemma VisibilityClauseSelects(v: Visibility, productTerms: set<Term>)
    requires v in VisibilityOptionKeys
    requires TermName("") !in productTerms
    ensures var inCatalog := TermName(ExcludeFromCatalog) !in productTerms;
            var inSearch := TermName(ExcludeFromSearch) !in productTerms;
            ClauseSelects(VisibilityClause(v), productTerms) <==>
              match v
              case Visible => inCatalog && inSearch
              case Catalog => inCatalog
              case Search => inSearch
              case Hidden => !inCatalog && !inSearch
              case Any => false
  {
    var c := VisibilityClause(v);
    assert forall t :: t in c.terms <==> t == c.terms[0] || t == c.terms[1];
  }

  /**
   * The reference definition of one parent clause after the three operator
   * passes. The passes run in the order category, tag, attribute, so when a
   * taxonomy is matched by more than one pass the later pass's operator stays.
   */
  function Augmented(c: Clause, request: FilterRequest, attributeTaxonomies: set<string>): (a: Clause)
    ensures a.taxonomy == c.taxonomy && a.field == c.field && a.terms == c.terms
    ensures request.categoryOperator.Some? && c.taxonomy == CategoryTaxonomy ==>
              a.includeChildren == Some(request.categoryOperator.value != And)
    ensures request.categoryOperator.None? || c.taxonomy != CategoryTaxonomy ==>
              a.includeChildren == c.includeChildren
    ensures request.categoryOperator.Some? && c.taxonomy == CategoryTaxonomy &&
            (request.attributeOperator.None? || c.taxonomy !in attributeTaxonomies) ==>
              a.operator == Some(OperatorName(request.categoryOperator.value))
    ensures request.tagOperator.Some? && c.taxonomy == TagTaxonomy &&
            (request.attributeOperator.None? || c.taxonomy !in attributeTaxonomies) ==>
              a.operator == Some(OperatorName(request.tagOperator.value))
    ensures request.attributeOperator.Some? && c.taxonomy in attributeTaxonomies ==>
              a.operator == Some(OperatorName(request.attributeOperator.value))
    ensures (request.categoryOperator.None? || c.taxonomy != CategoryTaxonomy) &&
            (request.tagOperator.None? || c.taxonomy != TagTaxonomy) &&
            (request.attributeOperator.None? || c.taxonomy !in attributeTaxonomies) ==>
              a == c
  {
    var operator :=
      if request.attributeOperator.Some? && c.taxonomy in attributeTaxonomies then
        Some(OperatorName(request.attributeOperator.value))
      else if request.tagOperator.Some? && c.taxonomy == TagTaxonomy then
        Some(OperatorName(request.tagOperator.value))
      else if request.categoryOperator.Some? && c.taxonomy == CategoryTaxonomy then
        Some(OperatorName(request.categoryOperator.value))
      else
        c.operator;
    var includeChildren :=
      if request.categoryOperator.Some? && c.taxonomy == CategoryTaxonomy then
        Some(request.categoryOperator.value != And)
      else
        c.includeChildren;
    c.(operator := operator, includeChildren := includeChildren)
  }

  /**
   * The category pass: every `product_cat` clause gets the mapped operator,
   * and `include_children` false for AND and true otherwise; every other
   * clause is kept, and no clause is added, removed or moved.
   */
  method OverrideCategoryOperator(clauses: seq<Clause>, op: OperatorParam) returns (result: seq<Clause>)
    ensures |result| == |clauses|
    ensures forall i :: 0 <= i < |clauses| && clauses[i].taxonomy == CategoryTaxonomy ==>
              result[i] == clauses[i].(operator := Some(OperatorName(op)), includeChildren := Some(op != And))
    ensures forall i :: 0 <= i < |clauses| && clauses[i].taxonomy != CategoryTaxonomy ==>
              result[i] == clauses[i]
  {
    var operator := OperatorName(op);
    result := clauses;
    var i := 0;
    while i < |clauses|
      invariant 0 <= i <= |clauses| == |result|
      invariant forall j :: 0 <= j < i && clauses[j].taxonomy == CategoryTaxonomy ==>
                  result[j] == clauses[j].(operator := Some(OperatorName(op)), includeChildren := Some(op != And))
      invariant forall j :: 0 <= j < |clauses| && (i <= j || clauses[j].taxonomy != CategoryTaxonomy) ==>
                  result[j] == clauses[j]
    {
      if clauses[i].taxonomy == CategoryTaxonomy {
        result := result[i := result[i].(operator := Some(operator), includeChildren := Some(operator != "AND"))];
      }
      i := i + 1;
    }
  }

  /**
   * The tag and attribute passes: every clause whose taxonomy is one of
   * `targets` gets the mapped operator and nothing else; every other clause
   * is kept, and no clause is added, removed or moved.
   */
  method OverrideOperator(clauses: seq<Clause>, targets: set<string>, op: OperatorParam) returns (result: seq<Clause>)
    ensures |result| == |clauses|
    ensures forall i :: 0 <= i < |clauses| && clauses[i].taxonomy in targets ==>
              result[i] == clauses[i].(operator := Some(OperatorName(op)))
    ensures forall i :: 0 <= i < |clauses| && clauses[i].taxonomy !in targets ==>
              result[i] == clauses[i]
  {
    var operator := OperatorName(op);
    result := clauses;
    var i := 0;
    while i < |clauses|
      invariant 0 <= i <= |clauses| == |result|
      invariant forall j :: 0 <= j < i && clauses[j].taxonomy in targets ==>
                  result[j] == clauses[j].(operator := Some(OperatorName(op)))
      invariant forall j :: 0 <= j < |clauses| && (i <= j || clauses[j].taxonomy !in targets) ==>
                  result[j] == clauses[j]
    {
      if clauses[i].taxonomy in targets {
        result := result[i := result[i].(operator := Some(operator))];
      }
      i := i + 1;
    }
  }

  /**
   * The whole translation. `base` is the parent controller's `tax_query`
   * (`None` when it set none) and `attributeTaxonomies` the names of the
   * shop's attribute taxonomies. Every parent clause is kept in place and
   * becomes its `Augmented` form; the visibility clause, when the request
   * asks for one, is appended after them, creating `tax_query` if needed.
   */
  method PrepareObjectsQuery(base: Option<seq<Clause>>, request: FilterRequest, attributeTaxonomies: set<string>)
    returns (taxQuery: Option<seq<Clause>>)
    ensures taxQuery.None? <==> base.None? && !AppendsVisibility(request)
    ensures base.Some? ==>
              taxQuery.Some? &&
              |taxQuery.value| == |base.value| + (if AppendsVisibility(request) then 1 else 0) &&
              forall i :: 0 <= i < |base.value| ==>
                taxQuery.value[i] == Augmented(base.value[i], request, attributeTaxonomies)
    ensures base.None? && AppendsVisibility(request) ==>
              taxQuery == Some([VisibilityClause(request.catalogVisibility.value)])
    ensures base.Some? && AppendsVisibility(request) ==>
              taxQuery.value[|base.value|] == VisibilityClause(request.catalogVisibility.value)
  {
    taxQuery := base;
    if request.categoryOperator.Some? && taxQuery.Some? {
      var clauses := OverrideCategoryOperator(taxQuery.value, request.categoryOperator.value);
      taxQuery := Some(clauses);
    }
    if request.tagOperator.Some? && taxQuery.Some? {
      var clauses := OverrideOperator(taxQuery.value, {TagTaxonomy}, request.tagOperator.value);
      taxQuery := Some(clauses);
    }
    if request.attributeOperator.Some? && taxQuery.Some? {
      var clauses := OverrideOperator(taxQuery.value, attributeTaxonomies, request.attributeOperator.value);
      taxQuery := Some(clauses);
    }
    if AppendsVisibility(request) {
      var clauses := if taxQuery.Some? then taxQuery.value else [];
      assert taxQuery.None? ==> clauses + [VisibilityClause(request.catalogVisibility.value)]
                                == [VisibilityClause(request.catalogVisibility.value)];
      taxQuery := Some(clauses + [VisibilityClause(request.catalogVisibility.value)]);
    }
  }
}
