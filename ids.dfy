/** Identification of the ledger's entities: an entity name within a domain name. */
module Ids {
  import opened Primitives

  datatype Id = Id(entityName: Str, domainName: Str)

  /** `Id::new`: pairs the two names as given, with no validation. */
  function NewId(entityName: Str, domainName: Str): (id: Id)
    ensures id.entityName == entityName && id.domainName == domainName
  {
    Id(entityName, domainName)
  }

  /** Identifiers are equal exactly when both of their names are equal. */
  lemma NewIdInjective(e1: Str, d1: Str, e2: Str, d2: Str)
    ensures NewId(e1, d1) == NewId(e2, d2) <==> e1 == e2 && d1 == d2
  {
  }
}
