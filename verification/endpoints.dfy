/**
 * REST endpoint templates and `replacePathParams`, which fills their `:name`
 * placeholders. The current frontend and the older `chess-app` client carry
 * identical copies of the function; it is defined once here.
 */
module Endpoints {
  import opened Wrappers
  import opened Text

  /** `GAME_BY_ID`, the same in both clients. */
  const GameById: string := "/games/:id"

  /** `MAKE_MOVE`, which only the older client has. */
  const MakeMove: string := "/games/:id/move"

  /** The placeholder a parameter named `key` fills. */
  function Placeholder(key: string): string {
    ":" + key
  }

  /**
   * `replacePathParams`: for each (key, value) in the object's iteration
   * order, the first ":key" still present in the growing result is
   * replaced by the value.
   */
  function ReplacePathParams(endpoint: string, params: seq<(string, string)>): (r: string)
    ensures |params| == 0 ==> r == endpoint
    decreases |params|
  {
    if |params| == 0 then endpoint
    else ReplacePathParams(ReplaceFirst(endpoint, Placeholder(params[0].0), params[0].1), params[1..])
  }

  /**
   * When no key's placeholder occurs in the endpoint, the endpoint comes
   * back unchanged, whatever the values.
   */
  lemma {:induction false} AbsentKeysChangeNothing(endpoint: string, params: seq<(string, string)>)
    requires forall j :: 0 <= j < |params| ==> IndexOf(endpoint, Placeholder(params[j].0), 0).None?
    ensures ReplacePathParams(endpoint, params) == endpoint
    decreases |params|
  {
    if |params| > 0 {
      assert ReplaceFirst(endpoint, Placeholder(params[0].0), params[0].1) == endpoint;
      assert forall j :: 0 <= j < |params[1..]| ==> params[1..][j] == params[j + 1];
      AbsentKeysChangeNothing(endpoint, params[1..]);
    }
  }

  /**
   * One parameter fills the first placeholder for its key and keeps the
   * rest of the template verbatim, a second ":key" in `post` included,
   * provided nothing before the placeholder is a ':'.
   */
  lemma FillsFirstSlot(pre: string, key: string, post: string, value: string)
    requires ':' !in pre
    ensures ReplacePathParams(pre + Placeholder(key) + post, [(key, value)]) == pre + value + post
  {
    var s, pat := pre + Placeholder(key) + post, Placeholder(key);
    assert OccursAt(s, pat, |pre|) by { assert s[|pre|..|pre| + |pat|] == pat; }
    forall i | 0 <= i < |pre| ensures !OccursAt(s, pat, i) {
      assert s[i] == pre[i] != ':';
    }
    var at := IndexOf(s, pat, 0);
    assert at == Some(|pre|);
    assert s[..|pre|] == pre;
    assert s[|pre| + |pat|..] == post;
    assert ReplacePathParams(s, [(key, value)]) == ReplacePathParams(ReplaceFirst(s, pat, value), []);
  }

  /** `GAME_BY_ID` with an id gives "/games/" followed by the id. */
  lemma GameByIdFilled(id: string)
    ensures ReplacePathParams(GameById, [("id", id)]) == "/games/" + id
  {
    assert GameById == "/games/" + Placeholder("id") + "";
    FillsFirstSlot("/games/", "id", "", id);
    assert "/games/" + id + "" == "/games/" + id;
  }

  /** The older client's `MAKE_MOVE` with an id gives "/games/" + id + "/move". */
  lemma MakeMoveFilled(id: string)
    ensures ReplacePathParams(MakeMove, [("id", id)]) == "/games/" + id + "/move"
  {
    assert MakeMove == "/games/" + Placeholder("id") + "/move";
    FillsFirstSlot("/games/", "id", "/move", id);
  }

  /** A template with the same placeholder twice has only its first one filled. */
  lemma OnlyFirstOccurrenceFilled(id: string)
    ensures ReplacePathParams("/games/:id/:id", [("id", id)]) == "/games/" + id + "/:id"
  {
    assert "/games/:id/:id" == "/games/" + Placeholder("id") + "/:id";
    FillsFirstSlot("/games/", "id", "/:id", id);
  }
}
