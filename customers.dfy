/**
 * `getCustomerByAttribute`, shared by the address import and the card import:
 * find the customer of a website whose attributes equal the given values, the
 * attribute names and the values both given as comma-separated strings.
 */
module CustomerLookup {
  import opened Wrappers
  import opened Php

  /** A customer as the collection returns it: its entity id, its website and the
      attributes a query can filter on ("email", "old_customer_id", "entity_id", ...). */
  datatype Customer = Customer(id: nat, websiteId: nat, attributes: map<string, string>)

  /** In Magento the `entity_id` attribute is the entity id itself; a collection
      that keeps the two apart is not one the store can return. */
  predicate EntityIdConsistent(c: Customer) {
    "entity_id" in c.attributes ==> c.attributes["entity_id"] == DigitsOf(c.id)
  }

  /** Reading `$values[$key]` past the last value raises an error; the attribute
      that had no value is recorded. */
  datatype LookupError = MissingValue(attribute: string)

  /** The query's conditions: website, then one `attribute = value` filter per pair. */
  predicate MatchesFilters(c: Customer, websiteId: nat, filters: seq<(string, string)>) {
    c.websiteId == websiteId &&
    forall i :: 0 <= i < |filters| ==> filters[i].0 in c.attributes && c.attributes[filters[i].0] == filters[i].1
  }

  /** The index of the first customer of the collection that satisfies the query. */
  function FirstMatch(collection: seq<Customer>, websiteId: nat, filters: seq<(string, string)>): (r: Option<nat>)
    ensures r.Some? ==> r.value < |collection| && MatchesFilters(collection[r.value], websiteId, filters)
    ensures r.Some? ==> forall j :: 0 <= j < r.value ==> !MatchesFilters(collection[j], websiteId, filters)
    ensures r.None? ==> forall j :: 0 <= j < |collection| ==> !MatchesFilters(collection[j], websiteId, filters)
    decreases |collection|
  {
    if collection == [] then None
    else if MatchesFilters(collection[0], websiteId, filters) then Some(0)
    else
      match FirstMatch(collection[1..], websiteId, filters)
      case None => None
      case Some(i) => Some(i + 1)
  }

  /** The attribute names paired position by position with the values. */
  function Pairs(attributes: seq<string>, values: seq<string>): (filters: seq<(string, string)>)
    requires |attributes| <= |values|
    ensures |filters| == |attributes|
    ensures forall i :: 0 <= i < |attributes| ==> filters[i] == (attributes[i], values[i])
  {
    seq(|attributes|, i requires 0 <= i < |attributes| => (attributes[i], values[i]))
  }

  /**
   * What `getCustomerByAttribute($attributes, $values, $websiteId)` returns: an
   * error when some attribute has no value at its position; otherwise the first
   * customer of the website that has every attribute equal to its paired value,
   * or None when there is none or its id is 0 (a model that was not loaded).
   */
  function FindCustomer(collection: seq<Customer>, attributes: string, values: string, websiteId: nat)
    : (r: Result<Option<Customer>, LookupError>)
    ensures r.Err? <==> |Explode(values)| < |Explode(attributes)|
    ensures r.Ok? ==> var filters := Pairs(Explode(attributes), Explode(values));
      (r.value.Some? ==>
        r.value.value.id != 0 && r.value.value.websiteId == websiteId &&
        exists i :: 0 <= i < |collection| && collection[i] == r.value.value
          && MatchesFilters(collection[i], websiteId, filters)
          && forall j :: 0 <= j < i ==> !MatchesFilters(collection[j], websiteId, filters))
      && (r.value.None? ==>
        forall i :: 0 <= i < |collection| && MatchesFilters(collection[i], websiteId, filters)
          ==> exists j :: 0 <= j <= i && MatchesFilters(collection[j], websiteId, filters) && collection[j].id == 0)
  {
    var attrs := Explode(attributes);
    var vals := Explode(values);
    if |vals| < |attrs| then Err(MissingValue(attrs[|vals|]))
    else
      var filters := Pairs(attrs, vals);
      match FirstMatch(collection, websiteId, filters)
      case None => Ok(None)
      case Some(i) => if collection[i].id != 0 then Ok(Some(collection[i])) else Ok(None)
  }

  /** The method as the command runs it: a loop that adds one filter per attribute
      to the query, then the query's first item. */
  method GetCustomerByAttribute(collection: seq<Customer>, attributes: string, values: string, websiteId: nat)
    returns (r: Result<Option<Customer>, LookupError>)
    ensures r == FindCustomer(collection, attributes, values, websiteId)
  {
    var attrs := Explode(attributes);
    var vals := Explode(values);
    var filters: seq<(string, string)> := [];
    for key := 0 to |attrs|
      invariant key <= |vals|
      invariant filters == Pairs(attrs[..key], vals)
    {
      if key >= |vals| {
        return Err(MissingValue(attrs[key]));
      }
      filters := filters + [(attrs[key], vals[key])];
    }
    assert attrs[..|attrs|] == attrs;
    var found := FirstMatch(collection, websiteId, filters);
    if found.Some? && collection[found.value].id != 0 {
      r := Ok(Some(collection[found.value]));
    } else {
      r := Ok(None);
    }
  }
}
