/** The filter select: choosing the selected value again clears it and
    removes `filter` from the query, choosing another value selects it and
    sets `filter`. After a choice the control is disabled until a timer
    re-enables it; a choice made meanwhile is ignored. */
module Filter {
  import opened Wrappers
  import opened UrlQuery

  class FilterControl {
    /** The selected value, "" for none. */
    var search: string
    var isButtonDisabled: bool

    /** The selection starts from the `filter` parameter. */
    constructor (params: Query)
      ensures search == (if "filter" in params then params["filter"] else "")
      ensures !isButtonDisabled
    {
      search := if "filter" in params then params["filter"] else "";
      isButtonDisabled := false;
    }

    /** `handleTypeClick`: the URL for choosing `item` with the current selection. */
    method HandleTypeClick(item: string, params: Query, path: string) returns (url: Url)
      ensures url.path == path
      ensures search == item ==> url.query == params - {"filter"}
      ensures search != item ==> url.query == params["filter" := item]
    {
      if search == item {
        url := RemoveKeysFromQuery(Parse(params), path, ["filter"]);
        assert url.query == params - {"filter"};
      } else {
        url := FormUrlQuery(Parse(params), path, "filter", Some(item));
        assert url.query == params["filter" := item];
      }
    }

    /** `handleButtonClick`: ignored while disabled; otherwise disables the
        control, toggles the selection and navigates (computing the URL from
        the selection as it was before the toggle). */
    method HandleButtonClick(item: string, params: Query, path: string) returns (nav: Option<Url>)
      modifies this
      ensures old(isButtonDisabled) ==> nav.None? && search == old(search) && isButtonDisabled
      ensures !old(isButtonDisabled) ==>
        && isButtonDisabled
        && search == (if old(search) == item then "" else item)
        && nav.Some? && nav.value.path == path
        && ("filter" in nav.value.query <==> old(search) != item)
        && ("filter" in nav.value.query ==> nav.value.query["filter"] == item)
        && (item != "" ==> ("filter" in nav.value.query <==> search != ""))
        && (forall k :: k != "filter" ==>
              (k in nav.value.query <==> k in params) && (k in nav.value.query ==> nav.value.query[k] == params[k]))
    {
      if isButtonDisabled {
        return None;
      }
      isButtonDisabled := true;
      var url := HandleTypeClick(item, params, path);
      search := if search == item then "" else item;
      nav := Some(url);
    }

    /** The re-enable timer firing. */
    method TimerFired()
      modifies this
      ensures !isButtonDisabled && search == old(search)
    {
      isButtonDisabled := false;
    }
  }
}
