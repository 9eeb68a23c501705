/**
 * The retrieval section of `test.py`: module-level copies of the retriever's
 * `dynamic_filter` and `get_filtered_docs`, over catalogs loaded once at
 * import time.
 */
module TestScript {
  import opened Catalog
  import opened Documents
  import opened PassageFilter
  import Retriever

  /** `dynamic_filter(query)`: the same dict as the retriever's. */
  method DynamicFilter(query: string, catalogs: Catalogs) returns (filterDict: Criteria)
    ensures filterDict == Retriever.QueryFilter(query, catalogs)
  {
    filterDict := Retriever.DynamicFilter(query, catalogs);
  }

  /** `get_filtered_docs(query, retrieved_docs)`: the same passages as the retriever keeps. */
  method GetFilteredDocs(query: string, catalogs: Catalogs, retrievedDocs: seq<Document>)
    returns (filteredDocs: seq<Document>)
    ensures filteredDocs == FilterDocs(Retriever.QueryFilter(query, catalogs), retrievedDocs)
  {
    var filterCriteria := DynamicFilter(query, catalogs);
    filteredDocs := FilterByCriteria(filterCriteria, retrievedDocs);
  }
}
