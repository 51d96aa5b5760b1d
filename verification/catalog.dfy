/**
 * The method catalog (`ALL_METHODS` and `CATEGORY_MAP` of the templates
 * module): a read-only table from method id to its template, in declaration
 * order, plus the table from category name to the ids recommended for it.
 * Its contents are not part of this model; only its shape is.
 */
module Catalog {
  import opened Basics

  datatype MethodTemplate = MethodTemplate(
    name: string,
    category: string,
    steps: int,
    questions: seq<string>,
    bestFor: string
  )

  /**
   * `order` is the iteration order of `ALL_METHODS`; `categoryMap` is
   * `CATEGORY_MAP`, keyed by category name.
   */
  datatype Catalog = Catalog(
    order: seq<string>,
    methods: map<string, MethodTemplate>,
    categoryMap: map<string, seq<string>>
  )

  /** Every id is listed once, the listing is the key set, and every template has one question per step. */
  predicate WellFormed(c: Catalog) {
    && NoDup(c.order)
    && (forall id :: id in c.order ==> id in c.methods)
    && (forall id :: id in c.methods ==> id in c.order)
    && (forall id :: id in c.methods ==> |c.methods[id].questions| == c.methods[id].steps)
  }
}
