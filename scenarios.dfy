/** Request sequences run against the model, with their outcomes proved:
    the flow of tests/test_functional.py, extended where noted, and the input that shows the
    last-second redirect failure. */
module Scenarios {
  import opened Wrappers
  import opened Http
  import opened Schema
  import opened ShortCode
  import opened Queries
  import opened Auth
  import opened Service

  const ExampleUrl := "https://www.example.com"
  const UpdatedUrl := "https://updated.example.com"
  const Alias := "myalias"

  /** 2023-11-14 and a far-future expiry, in microseconds. */
  const Start: Time := 1_700_000_000_000_000
  const FarFuture: Time := 32_000_000_000_000_000

  /** A link created with half a second to live, redirected at once: the
      code as written answers 500, the corrected one redirects. */
  method LastSecondRedirect() returns (asWritten: Result<string, HttpError>, corrected: Result<string, HttpError>)
    ensures asWritten == Err(InternalError)
    ensures corrected == Ok(ExampleUrl)
  {
    var draws: seq<Draw> := [0, 0, 0, 0, 0, 0, 0, 0, 0, 0];
    var a := new Shortener();
    var created := a.Shorten(ExampleUrl, Start + 500_000, Some(Alias), None, draws, Start);
    asWritten := a.RedirectAsWritten(Alias, Start);
    var b := new Shortener();
    created := b.Shorten(ExampleUrl, Start + 500_000, Some(Alias), None, draws, Start);
    corrected := b.Redirect(Alias, Start);
  }

  /** The creation tests of tests/test_functional.py, with alice's token
      `token` decoding to her id. */
  method CreateFlow(token: string, aliceId: string, draws: seq<Draw>)
    returns (anonymous: Result<string, HttpError>, past: Result<string, HttpError>,
             aliased: Result<string, HttpError>, conflict: Result<string, HttpError>)
    requires ' ' !in token && |draws| == DefaultLength
    ensures anonymous.Ok? && |anonymous.value| == DefaultLength && IsShortCode(anonymous.value)
    ensures past == Err(ExpireInPast)
    ensures aliased == Ok(Alias)
    ensures conflict == Err(AliasExists)
  {
    var app := new Shortener();
    var registered := app.Register("alice", "bcrypt-hash", aliceId);

    var decode: map<string, Claims> := map[token := map["sub" := aliceId]];
    BearerHeaderRoundTrip(token, decode);
    var caller := GetUserId(Some(BearerPrefix + token), decode);
    assert caller == Ok(Some(aliceId));

    anonymous := app.Shorten(ExampleUrl, FarFuture, None, None, draws, Start);
    past := app.Shorten(ExampleUrl, Start - 1, None, None, draws, Start + 1);
    assert Alias !in app.links;
    aliased := app.Shorten(ExampleUrl, FarFuture, Some(Alias), caller.value, draws, Start + 2);
    conflict := app.Shorten("https://www.example2.com", FarFuture, Some(Alias), caller.value, draws, Start + 3);
  }

  /** The list and search tests of tests/test_functional.py: alice sees her
      link and not the anonymous one. */
  method ListSearchFlow(aliceId: string, draws: seq<Draw>)
    returns (listed: set<LinkDto>, searched: Result<set<LinkDto>, HttpError>, noTerm: Result<set<LinkDto>, HttpError>)
    requires |draws| == DefaultLength
    ensures |listed| == 1
    ensures forall d :: d in listed ==> d.id == Alias && d.url == ExampleUrl && d.accessCount == 0
    ensures searched == Ok(listed)
    ensures noTerm == Err(SearchTermRequired)
  {
    var app := new Shortener();
    var registered := app.Register("alice", "bcrypt-hash", aliceId);
    var anonymous := app.Shorten(ExampleUrl, FarFuture, None, None, draws, Start);
    var aliased := app.Shorten(ExampleUrl, FarFuture, Some(Alias), Some(aliceId), draws, Start + 1);
    var created := app.links[Alias];
    assert forall id :: id in app.links && app.links[id].userId == Some(aliceId) ==> id == Alias;

    listed := List(app.links, aliceId);
    assert listed == {ToDto(created)};
    assert OccursAt(ExampleUrl, "example", 12);
    searched := Search(app.links, aliceId, "example");
    assert searched.value == {ToDto(created)};
    noTerm := Search(app.links, aliceId, "");
  }

  /** The redirect, stats, update and delete tests of
      tests/test_functional.py, chained into one sequence over one cache
      (each of those tests starts from an empty cache). Two requests extend
      them: a redirect after the update, which still answers the old url
      because the update leaves the cached entry in place, and a redirect
      after the delete, which answers 404. */
  method RedirectUpdateDeleteFlow(aliceId: string, draws: seq<Draw>)
    returns (redirected: Result<string, HttpError>, countAfterRedirect: nat,
             statsAfterUpdate: Result<LinkDto, HttpError>, staleRedirect: Result<string, HttpError>,
             statsAfterDelete: Result<LinkDto, HttpError>, redirectAfterDelete: Result<string, HttpError>)
    requires |draws| == DefaultLength
    ensures redirected == Ok(ExampleUrl)
    ensures countAfterRedirect == 1
    ensures statsAfterUpdate.Ok? && statsAfterUpdate.value.url == UpdatedUrl && statsAfterUpdate.value.accessCount == 1
    ensures staleRedirect == Ok(ExampleUrl)
    ensures statsAfterDelete == Err(LinkNotFound)
    ensures redirectAfterDelete == Err(LinkNotFound)
  {
    var app := new Shortener();
    var registered := app.Register("alice", "bcrypt-hash", aliceId);
    var aliased := app.Shorten(ExampleUrl, FarFuture, Some(Alias), Some(aliceId), draws, Start);
    assert app.links[Alias].url == ExampleUrl;

    redirected := app.Redirect(Alias, Start + 1);
    var stats := Stats(app.links, Alias, aliceId);
    countAfterRedirect := stats.value.accessCount;

    var updated := app.Update(Alias, UpdatedUrl, aliceId, Start + 2);
    statsAfterUpdate := Stats(app.links, Alias, aliceId);
    assert CachedUrl(app.cache, Alias, Start + 3) == Some(ExampleUrl);
    staleRedirect := app.Redirect(Alias, Start + 3);

    var deleted := app.Delete(Alias, aliceId);
    statsAfterDelete := Stats(app.links, Alias, aliceId);
    redirectAfterDelete := app.Redirect(Alias, Start + 4);
  }
}
