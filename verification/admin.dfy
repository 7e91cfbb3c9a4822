/** The admin page (app/admin/page.tsx): the games list it loads, the switch
    between the games table and the game form, and the request a save or a
    delete sends. */
module AdminPage {
  import opened Models
  import opened Http

  datatype HttpMethod = Post | Put | Delete

  /** A request the page sends: its method and URL. The body of a save is the
      form's data, passed through unchanged. */
  datatype Request = Request(verb: HttpMethod, url: string)

  const GamesPath: string := "/api/games"

  /** `/api/games/${id}` */
  function GamePath(id: Id): (url: string)
    ensures |url| == |GamesPath| + 1 + |id|
    ensures GamesPath + "/" <= url && url[|GamesPath| + 1..] == id
  {
    GamesPath + "/" + id
  }

  /** The save target: `PUT /api/games/{id}` while editing a game, `POST /api/games` otherwise. */
  function SaveRequest(editingGame: Option<Game>): (r: Request)
    ensures r.verb == Put <==> editingGame.Some?
    ensures r.verb == Post <==> editingGame.None?
    ensures editingGame.Some? ==> r.url == GamePath(editingGame.value.id)
    ensures editingGame.None? ==> r.url == GamesPath
  {
    match editingGame
    case Some(g) => Request(Put, GamePath(g.id))
    case None => Request(Post, GamesPath)
  }

  /** Edits of two different games go to two different URLs, and neither is
      the collection URL that creation posts to. */
  lemma SaveRequestsDistinct(a: Game, b: Game)
    ensures SaveRequest(Some(a)).url == SaveRequest(Some(b)).url ==> a.id == b.id
    ensures SaveRequest(Some(a)).url != SaveRequest(None).url
  {
    var ua, ub := GamePath(a.id), GamePath(b.id);
    if ua == ub {
      assert ua[|GamesPath| + 1..] == ub[|GamesPath| + 1..];
    }
  }

  /** `DELETE /api/games/{id}` */
  function DeleteRequest(gameId: Id): (r: Request)
    ensures r.verb == Delete && r.url == GamePath(gameId)
  {
    Request(Delete, GamePath(gameId))
  }

  /** How `fetchGames` ends: the list from an ok response, a response without
      `ok`, or a failed request (caught and logged). */
  datatype GamesResponse = GamesOk(games: seq<Game>) | GamesNotOk | GamesFailed

  /** What the page shows. */
  datatype Screen = LoadingScreen | FormScreen(editing: Option<Game>) | TableScreen(games: seq<Game>)

  function View(loading: bool, showForm: bool, editingGame: Option<Game>, games: seq<Game>): (s: Screen)
    ensures loading <==> s == LoadingScreen
    ensures !loading ==> (s.FormScreen? <==> showForm)
    ensures !loading && showForm ==> s.editing == editingGame
    ensures !loading && !showForm ==> s == TableScreen(games)
  {
    if loading then LoadingScreen
    else if showForm then FormScreen(editingGame)
    else TableScreen(games)
  }

  /** The page's state. */
  class AdminPanel {
    var games: seq<Game>
    var editingGame: Option<Game>
    var showForm: bool
    var loading: bool

    /** The initial state: no games, nothing edited, the table, and loading. */
    constructor ()
      ensures games == [] && editingGame == None && !showForm && loading
    {
      games := [];
      editingGame := None;
      showForm := false;
      loading := true;
    }

    /** `fetchGames`: an ok response replaces the list, anything else keeps it;
        `loading` ends false on every path. */
    method FetchGames(response: GamesResponse)
      modifies this
      ensures response.GamesOk? ==> games == response.games
      ensures !response.GamesOk? ==> games == old(games)
      ensures !loading && editingGame == old(editingGame) && showForm == old(showForm)
    {
      if response.GamesOk? {
        games := response.games;
      }
      loading := false;
    }

    /** `handleAdd`: an empty form. */
    method HandleAdd()
      modifies this
      ensures editingGame == None && showForm
      ensures games == old(games) && loading == old(loading)
    {
      editingGame := None;
      showForm := true;
    }

    /** `handleEdit(game)`: the form filled with `game`. */
    method HandleEdit(game: Game)
      modifies this
      ensures editingGame == Some(game) && showForm
      ensures games == old(games) && loading == old(loading)
    {
      editingGame := Some(game);
      showForm := true;
    }

    /** `handleCancel`: back to the table. */
    method HandleCancel()
      modifies this
      ensures !showForm && editingGame == None
      ensures games == old(games) && loading == old(loading)
    {
      showForm := false;
      editingGame := None;
    }

    /** `handleSubmit`: the request goes to the save target; an ok response
        reloads the list and closes the form; otherwise the error is rethrown
        to the form and the page state is left as it was. */
    method HandleSubmit(outcome: FetchOutcome, reload: GamesResponse) returns (request: Request, thrown: bool)
      modifies this
      ensures request == SaveRequest(old(editingGame))
      ensures thrown <==> outcome != ResponseOk
      ensures outcome == ResponseOk ==> !showForm && editingGame == None && !loading
      ensures outcome == ResponseOk && reload.GamesOk? ==> games == reload.games
      ensures outcome == ResponseOk && !reload.GamesOk? ==> games == old(games)
      ensures outcome != ResponseOk ==>
                games == old(games) && editingGame == old(editingGame) &&
                showForm == old(showForm) && loading == old(loading)
    {
      request := SaveRequest(editingGame);
      if outcome == ResponseOk {
        FetchGames(reload);
        showForm := false;
        editingGame := None;
        thrown := false;
      } else {
        thrown := true;
      }
    }

    /** `handleDelete(gameId)`, the table's `onDelete`: an ok response reloads
        the list; otherwise the alert is shown and the state is kept. */
    method HandleDelete(gameId: Id, outcome: FetchOutcome, reload: GamesResponse) returns (request: Request, alerted: bool)
      modifies this
      ensures request == DeleteRequest(gameId)
      ensures alerted <==> outcome != ResponseOk
      ensures outcome == ResponseOk && reload.GamesOk? ==> games == reload.games
      ensures outcome != ResponseOk || !reload.GamesOk? ==> games == old(games)
      ensures editingGame == old(editingGame) && showForm == old(showForm)
      ensures outcome != ResponseOk ==> loading == old(loading)
      ensures outcome == ResponseOk ==> !loading
    {
      request := DeleteRequest(gameId);
      if outcome == ResponseOk {
        FetchGames(reload);
        alerted := false;
      } else {
        alerted := true;
      }
    }
  }
}
