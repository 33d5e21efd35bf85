/**
  The full-page handlers of internal/handlers/pages.go. Each builds the data
  for one page and hands it to `render`, which executes the page inside the
  shared layout; template execution is not part of this model.
 */
module Pages {
  import opened Http

  /** GET /: the home page, for the exact root path only; the pattern also catches every other unmatched path. */
  function HandleIndex(r: Request): (resp: Response)
    ensures resp == NotFound <==> r.path != "/"
    ensures resp.Page? <==> r.path == "/"
    ensures resp.Page? ==> && resp.page == "index"
                           && resp.data.Keys == {"Title", "Message"}
                           && resp.data["Title"] == "Home"
                           && resp.data["Message"] == "Welcome to Your Application"
  {
    if r.path != "/" then NotFound
    else
      var data := map["Title" := "Home", "Message" := "Welcome to Your Application"];
      Page("index", data)
  }

  /** GET /example: the example page, whatever the request. */
  function HandleExamplePage(r: Request): (resp: Response)
    ensures resp.Page? && resp.page == "example"
    ensures resp.data.Keys == {"Title", "Description"}
    ensures resp.data["Title"] == "Example Page"
    ensures resp.data["Description"] == "This page demonstrates HTMX integration"
  {
    var data := map["Title" := "Example Page", "Description" := "This page demonstrates HTMX integration"];
    Page("example", data)
  }
}
