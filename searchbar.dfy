/** The query transform the search bar performs once its typing settles:
    a non-empty search sets the search key (after dropping the page key when
    asked to), an empty search removes the search key. */
module SearchBar {
  import opened Wrappers
  import opened UrlQuery

  /** `o || d` on an optional string: an absent or empty value falls back. */
  function OrFalsy(o: Option<string>, d: string): (r: string)
    ensures o.Some? && o.value != "" ==> r == o.value
    ensures o.None? || o.value == "" ==> r == d
    ensures d != "" ==> r != ""
  {
    if o.Some? && o.value != "" then o.value else d
  }

  /** The initial search text: the `q` parameter, or "". */
  function InitialSearch(params: Query): (r: string)
    ensures "q" in params ==> r == params["q"]
    ensures "q" !in params ==> r == ""
  {
    if "q" in params then params["q"] else ""
  }

  /** Where the search bar navigates for the current `params` and `search`;
      `searchName` defaults to "q" and `pageResetKey` to "page". */
  method SearchNavigation(params: Query, path: string, search: string, searchName: Option<string>,
                          resetPageCount: bool, pageResetKey: Option<string>) returns (url: Url)
    ensures var key := OrFalsy(searchName, "q");
            var pageKey := OrFalsy(pageResetKey, "page");
            && url.path == path
            && (search != "" ==> key in url.query && url.query[key] == search)
            && (search != "" && resetPageCount && pageKey != key ==> pageKey !in url.query)
            && (search != "" && !resetPageCount ==> url.query == params[key := search])
            && (search == "" ==> url.query == params - {key})
            && (forall k :: k != key && k != pageKey ==>
                  (k in url.query <==> k in params) && (k in url.query ==> url.query[k] == params[k]))
  {
    var currentParams := params;
    var key := OrFalsy(searchName, "q");
    if search != "" {
      if resetPageCount {
        currentParams := currentParams - {OrFalsy(pageResetKey, "page")};
      }
      url := FormUrlQuery(Parse(currentParams), path, key, Some(search));
      assert url.query == currentParams[key := search];
    } else {
      url := RemoveKeysFromQuery(Parse(currentParams), path, [key]);
      assert url.query == params - {key};
    }
  }
}
