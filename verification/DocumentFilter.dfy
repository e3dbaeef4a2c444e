/** Which document ids are replicated at all (document-filter.service.ts). */
module DocumentFilter {
  predicate IsReplicable(ignoredPrefixes: seq<string>, id: string) {
    !exists i :: 0 <= i < |ignoredPrefixes| && ignoredPrefixes[i] <= id
  }
}
