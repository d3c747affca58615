/**
 * The menu navigation state machine of the bot (menuSystem.js): a two-level
 * menu tree (root, three categories, three leaves per category) and a per-user
 * session map from user id to the menu the user is currently in.
 *
 * The pure functions `Dispatch` and `Handle` are the specification; the class
 * `MenuSystem` is the stateful object, and its methods are proved against them.
 */
module Menus {
  import opened Wrappers
  import opened Strings

  /** The `MENUS` constant: the four states a session can be in. */
  datatype MenuId = Main | Menu1 | Menu2 | Menu3 {

    /** The string the source stores for this state and returns as a response's `type`. */
    function Name(): string {
      match this
      case Main => "main"
      case Menu1 => "menu1"
      case Menu2 => "menu2"
      case Menu3 => "menu3"
    }
  }

  /** The four stored strings are distinct, so comparing states is comparing their strings. */
  lemma NameInjective(a: MenuId, b: MenuId)
    ensures a.Name() == b.Name() <==> a == b
  {
  }

  /**
   * The reply texts. Their wording is not modelled: each menu and each leaf
   * has its own text, and two texts are equal only when they are the same one.
   */
  datatype Text = MenuText(menu: MenuId) | LeafText(menu: MenuId, item: nat)

  /**
   * The object `handleUserInput` returns. `kind` is its `type`; `option` is
   * `Some("k.j")` exactly for leaf replies, which also carry `isSubmenu: true`.
   */
  datatype Response = Response(text: Text, kind: MenuId, option: Option<string>) {
    predicate IsSubmenu() {
      option.Some?
    }
  }

  /** What one input does: the value written to the user's session entry (if any) and the reply. */
  datatype Outcome = Outcome(write: Option<MenuId>, response: Response)

  /** A whole session map after an input, together with the reply. */
  datatype Step = Step(sessions: map<string, MenuId>, response: Response)

  /** The number of a category menu (1, 2 or 3); the root has none, written 0. */
  function Category(m: MenuId): (k: nat)
    ensures k <= 3
    ensures k == 0 <==> m == Main
  {
    match m
    case Main => 0
    case Menu1 => 1
    case Menu2 => 2
    case Menu3 => 3
  }

  /** The category menu numbered `k`. */
  function CategoryMenu(k: nat): (m: MenuId)
    requires 1 <= k <= 3
    ensures Category(m) == k
  {
    if k == 1 then Menu1 else if k == 2 then Menu2 else Menu3
  }

  /** The decimal digit `d` as a character. */
  function DigitChar(d: nat): (c: char)
    requires d <= 9
    ensures IsDigit(c)
  {
    ('0' as int + d) as char
  }

  /** The dotted spelling "k.j" of option j in category k. */
  function Dotted(k: nat, j: nat): string
    requires k <= 9 && j <= 9
  {
    [DigitChar(k), '.', DigitChar(j)]
  }

  /** The compact spelling "kj" of option j in category k. */
  function Compact(k: nat, j: nat): string
    requires k <= 9 && j <= 9
  {
    [DigitChar(k), DigitChar(j)]
  }

  /** The tokens that return to the root menu from any state. */
  predicate IsBackToken(input: string) {
    input == "back" || input == "menu" || input == "main"
  }

  /** The root menu's options: each digit leads into its category. */
  const RootOptions: map<string, MenuId> := map["1" := Menu1, "2" := Menu2, "3" := Menu3]

  /**
   * The options of each category (the `case` labels of its `switch`): the
   * dotted and the compact spelling of each of its three leaves, mapped to the
   * leaf's number. The root has no leaf options.
   */
  function LeafOptions(m: MenuId): (opts: map<string, nat>)
    ensures forall t :: t in opts ==> 1 <= opts[t] <= 3
  {
    match m
    case Main => map[]
    case Menu1 => map["1.1" := 1, "11" := 1, "1.2" := 2, "12" := 2, "1.3" := 3, "13" := 3]
    case Menu2 => map["2.1" := 1, "21" := 1, "2.2" := 2, "22" := 2, "2.3" := 3, "23" := 3]
    case Menu3 => map["3.1" := 1, "31" := 1, "3.2" := 2, "32" := 2, "3.3" := 3, "33" := 3]
  }

  /** `getMainMenu` and `getMenu1`..`getMenu3`: the menu screen of `m`, whose `type` is `m`. */
  function MenuScreen(m: MenuId): (r: Response)
    ensures r.kind == m && !r.IsSubmenu()
  {
    Response(MenuText(m), m, None)
  }

  /** The reply for leaf `j` of category menu `m`: its own text, `type` `m`, `isSubmenu` and `option` "k.j". */
  function LeafResponse(m: MenuId, j: nat): (r: Response)
    requires m != Main && 1 <= j <= 3
    ensures r.kind == m && r.IsSubmenu() && r.option.value == Dotted(Category(m), j)
  {
    Response(LeafText(m, j), m, Some(Dotted(Category(m), j)))
  }

  /** `message.toLowerCase().trim()`. */
  function Normalize(message: string): string {
    Trim(ToLower(message))
  }

  /** The session entry of a user; a user without one is at the root. */
  function Lookup(sessions: map<string, MenuId>, userId: string): (m: MenuId)
    ensures userId !in sessions ==> m == Main
    ensures userId in sessions ==> m == sessions[userId]
  {
    if userId in sessions then sessions[userId] else Main
  }

  /**
   * The decision `handleUserInput` takes for a normalised input in state
   * `current`, as one table lookup per level: back tokens first, then the
   * root's digits or the category's leaf spellings, else the current menu again.
   * The reply's `type` is always the state the user is in afterwards, and
   * only the back tokens and the root's digits write the session.
   */
  function Dispatch(current: MenuId, input: string): (o: Outcome)
    ensures o.response.kind == o.write.GetOr(current)
    ensures o.write.Some? <==> IsBackToken(input) || (current == Main && input in RootOptions)
    ensures o.response.IsSubmenu() <==> !IsBackToken(input) && input in LeafOptions(current)
  {
    if IsBackToken(input) then
      Outcome(Some(Main), MenuScreen(Main))
    else if current == Main then
      if input in RootOptions then
        Outcome(Some(RootOptions[input]), MenuScreen(RootOptions[input]))
      else
        Outcome(None, MenuScreen(Main))
    else if input in LeafOptions(current) then
      Outcome(None, LeafResponse(current, LeafOptions(current)[input]))
    else
      Outcome(None, MenuScreen(current))
  }

  /**
   * `handleUserInput` on a whole session map: normalise, look the user up,
   * dispatch, write back. The reply's `type` is the user's menu afterwards, and
   * no other user's entry appears, disappears or changes.
   */
  function Handle(sessions: map<string, MenuId>, userId: string, message: string): (r: Step)
    ensures r.response.kind == Lookup(r.sessions, userId)
    ensures forall v :: v != userId ==> (v in r.sessions <==> v in sessions)
    ensures forall v :: v != userId && v in r.sessions ==> r.sessions[v] == sessions[v]
  {
    var o := Dispatch(Lookup(sessions, userId), Normalize(message));
    match o.write
    case Some(m) => Step(sessions[userId := m], o.response)
    case None => Step(sessions, o.response)
  }

  /** `resetUserSession` on a whole session map. */
  function Reset(sessions: map<string, MenuId>, userId: string): (s: map<string, MenuId>)
    ensures userId !in s
    ensures forall v :: v != userId ==> (v in s <==> v in sessions)
    ensures forall v :: v in s ==> s[v] == sessions[v]
  {
    sessions - {userId}
  }

  /** The bot's menu system: one per process, holding every user's current menu. */
  class MenuSystem {
    var userSessions: map<string, MenuId>

    constructor ()
      ensures userSessions == map[]
    {
      userSessions := map[];
    }

    /**
     * Handles one message from `userId`: the reply and the new session map are
     * those of `Handle`; in particular no other user's entry changes.
     */
    method HandleUserInput(userId: string, message: string) returns (response: Response)
      modifies this
      ensures Step(userSessions, response) == Handle(old(userSessions), userId, message)
      ensures forall v :: v != userId ==> (v in userSessions <==> v in old(userSessions))
      ensures forall v :: v != userId && v in userSessions ==> userSessions[v] == old(userSessions)[v]
    {
      var input := Normalize(message);
      var currentMenu := if userId in userSessions then userSessions[userId] else Main;

      if input == "back" || input == "menu" || input == "main" {
        userSessions := userSessions[userId := Main];
        return MenuScreen(Main);
      }

      match currentMenu
      case Main =>
        if input == "1" {
          userSessions := userSessions[userId := Menu1];
          response := MenuScreen(Menu1);
        } else if input == "2" {
          userSessions := userSessions[userId := Menu2];
          response := MenuScreen(Menu2);
        } else if input == "3" {
          userSessions := userSessions[userId := Menu3];
          response := MenuScreen(Menu3);
        } else {
          response := MenuScreen(Main);
        }
      case Menu1 =>
        if input == "1.1" || input == "11" {
          response := Response(LeafText(Menu1, 1), Menu1, Some("1.1"));
        } else if input == "1.2" || input == "12" {
          response := Response(LeafText(Menu1, 2), Menu1, Some("1.2"));
        } else if input == "1.3" || input == "13" {
          response := Response(LeafText(Menu1, 3), Menu1, Some("1.3"));
        } else {
          response := MenuScreen(Menu1);
        }
      case Menu2 =>
        if input == "2.1" || input == "21" {
          response := Response(LeafText(Menu2, 1), Menu2, Some("2.1"));
        } else if input == "2.2" || input == "22" {
          response := Response(LeafText(Menu2, 2), Menu2, Some("2.2"));
        } else if input == "2.3" || input == "23" {
          response := Response(LeafText(Menu2, 3), Menu2, Some("2.3"));
        } else {
          response := MenuScreen(Menu2);
        }
      case Menu3 =>
        if input == "3.1" || input == "31" {
          response := Response(LeafText(Menu3, 1), Menu3, Some("3.1"));
        } else if input == "3.2" || input == "32" {
          response := Response(LeafText(Menu3, 2), Menu3, Some("3.2"));
        } else if input == "3.3" || input == "33" {
          response := Response(LeafText(Menu3, 3), Menu3, Some("3.3"));
        } else {
          response := MenuScreen(Menu3);
        }
    }

    /** Forgets `userId`'s session; every other entry stays as it was. */
    method ResetUserSession(userId: string)
      modifies this
      ensures userSessions == Reset(old(userSessions), userId)
    {
      userSessions := userSessions - {userId};
    }
  }
}
