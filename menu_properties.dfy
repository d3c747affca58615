/**
 * What the menu state machine of menuSystem.js promises, stated about the
 * specification functions `Dispatch` and `Handle` that `MenuSystem`'s methods
 * are proved to follow.
 */
module MenuProperties {
  import opened Wrappers
  import opened Strings
  import opened Menus

  /** The reply's `type` is always the menu the user is in after the input. */
  lemma ReplyTypeIsNewState(s: map<string, MenuId>, u: string, m: string)
    ensures Handle(s, u, m).response.kind == Lookup(Handle(s, u, m).sessions, u)
  {
  }

  /** A user without a session entry is served as if at the root menu. */
  lemma NewUserIsAtMain(s: map<string, MenuId>, u: string, m: string)
    requires u !in s
    ensures Handle(s, u, m).response == Handle(s[u := Main], u, m).response
    ensures Lookup(Handle(s, u, m).sessions, u) == Lookup(Handle(s[u := Main], u, m).sessions, u)
  {
  }

  /** A back token (`back`, `menu`, `main`) from any state writes the root into the session and shows the root menu. */
  lemma BackFromAnyState(s: map<string, MenuId>, u: string, m: string)
    requires IsBackToken(Normalize(m))
    ensures Handle(s, u, m) == Step(s[u := Main], MenuScreen(Main))
  {
  }

  /** `toLowerCase` leaves whitespace alone and distributes over concatenation. */
  lemma ToLowerAround(w1: string, t: string, w2: string)
    requires AllWhitespace(w1) && AllWhitespace(w2)
    ensures ToLower(w1 + t + w2) == w1 + ToLower(t) + w2
  {
  }

  /**
   * The back tokens are recognised in any letter case and with any whitespace
   * around them, from any state, before any menu-specific option.
   */
  lemma BackInAnySpelling(s: map<string, MenuId>, u: string, w1: string, t: string, w2: string)
    requires AllWhitespace(w1) && AllWhitespace(w2)
    requires IsBackToken(ToLower(t))
    ensures Handle(s, u, w1 + t + w2) == Step(s[u := Main], MenuScreen(Main))
  {
    ToLowerAround(w1, t, w2);
    TrimSurrounded(w1, ToLower(t), w2);
    BackFromAnyState(s, u, w1 + t + w2);
  }

  /** At the root, the digit k (1, 2 or 3) moves the user into category k and shows its menu. */
  lemma RootDigitEntersCategory(s: map<string, MenuId>, u: string, m: string, k: nat)
    requires Lookup(s, u) == Main && 1 <= k <= 3
    requires Normalize(m) == [DigitChar(k)]
    ensures Handle(s, u, m) == Step(s[u := CategoryMenu(k)], MenuScreen(CategoryMenu(k)))
  {
  }

  /** At the root, any other input shows the root menu again and writes nothing. */
  lemma RootFallback(s: map<string, MenuId>, u: string, m: string)
    requires Lookup(s, u) == Main
    requires !IsBackToken(Normalize(m)) && Normalize(m) !in RootOptions
    ensures Handle(s, u, m) == Step(s, MenuScreen(Main))
  {
  }

  /** The spellings "k.j" and "kj" pass through normalisation unchanged. */
  lemma OptionSpellingsAreNormal(k: nat, j: nat)
    requires 1 <= k <= 3 && 1 <= j <= 3
    ensures Normalize(Dotted(k, j)) == Dotted(k, j)
    ensures Normalize(Compact(k, j)) == Compact(k, j)
  {
  }

  /** Category k's table holds both spellings of each of its leaves j, mapped to j. */
  lemma LeafOptionsHoldBothSpellings(k: nat, j: nat)
    requires 1 <= k <= 3 && 1 <= j <= 3
    ensures Dotted(k, j) in LeafOptions(CategoryMenu(k)) && LeafOptions(CategoryMenu(k))[Dotted(k, j)] == j
    ensures Compact(k, j) in LeafOptions(CategoryMenu(k)) && LeafOptions(CategoryMenu(k))[Compact(k, j)] == j
  {
  }

  /**
   * In category k, "k.j" and "kj" give the same reply: leaf j's text, with
   * `type` the category, `isSubmenu` set and `option` "k.j"; the session is
   * not written.
   */
  lemma LeafSpellingsAgree(s: map<string, MenuId>, u: string, k: nat, j: nat)
    requires 1 <= k <= 3 && 1 <= j <= 3
    requires Lookup(s, u) == CategoryMenu(k)
    ensures Handle(s, u, Dotted(k, j)) == Handle(s, u, Compact(k, j))
    ensures Handle(s, u, Dotted(k, j)) == Step(s, LeafResponse(CategoryMenu(k), j))
    ensures Handle(s, u, Dotted(k, j)).response.option == Some(Dotted(k, j))
  {
    OptionSpellingsAreNormal(k, j);
    LeafOptionsHoldBothSpellings(k, j);
    assert !IsBackToken(Dotted(k, j)) && !IsBackToken(Compact(k, j));
  }

  /** In a category, an input that is neither a back token nor one of its options shows the category's menu again. */
  lemma CategoryFallback(s: map<string, MenuId>, u: string, m: string)
    requires Lookup(s, u) != Main
    requires !IsBackToken(Normalize(m)) && Normalize(m) !in LeafOptions(Lookup(s, u))
    ensures Handle(s, u, m) == Step(s, MenuScreen(Lookup(s, u)))
  {
  }

  /** An input changes at most the entry of the user who sent it. */
  lemma OtherUsersUnchanged(s: map<string, MenuId>, u: string, m: string, v: string)
    requires v != u
    ensures v in Handle(s, u, m).sessions <==> v in s
    ensures v in s ==> Handle(s, u, m).sessions[v] == s[v]
  {
  }

  /** After a reset, a user's next input is handled exactly as a first-ever input. */
  lemma ResetThenInputIsFirstInput(s: map<string, MenuId>, u: string, m: string)
    ensures Handle(Reset(s, u), u, m).response == Handle(map[], u, m).response
    ensures u in Handle(Reset(s, u), u, m).sessions <==> u in Handle(map[], u, m).sessions
    ensures Lookup(Handle(Reset(s, u), u, m).sessions, u) == Lookup(Handle(map[], u, m).sessions, u)
  {
  }

  /**
   * Sending the same message again changes nothing and gets the same reply.
   * A root digit moves into its category the first time; the second time it
   * is no option of that category, which shows its menu again and writes nothing.
   */
  lemma RepeatIsStable(s: map<string, MenuId>, u: string, m: string)
    ensures Handle(Handle(s, u, m).sessions, u, m) == Handle(s, u, m)
  {
  }

  /**
   * A new user sends "1", then "1.1", then "back": the Academic Resources menu,
   * then the Course Materials leaf while staying in it, then the root menu.
   */
  lemma AcademicResourcesWalk(u: string)
    ensures var a := Handle(map[], u, "1");
      && a == Step(map[u := Menu1], MenuScreen(Menu1))
      && Handle(a.sessions, u, "1.1") == Step(map[u := Menu1], Response(LeafText(Menu1, 1), Menu1, Some("1.1")))
      && Handle(a.sessions, u, "back") == Step(map[u := Main], MenuScreen(Main))
  {
    TrimToLowerKeepsPlain("1");
    TrimToLowerKeepsPlain("1.1");
    TrimToLowerKeepsPlain("back");
  }
}
