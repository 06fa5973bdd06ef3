/** What the test for automatic submenus looks for in an item's condition. */
module SubmenuTest {
  import opened Tristate
  import opened Expressions
  import opened Equality
  import opened Slots
  import opened Submenu
  import opened MenuForest
  import opened MenuConditions
  import opened SymbolRules

  lemma {:induction false} ContainsExact(e: Expr, s: Symbol)
    ensures Contains(e, s) <==> s in Symbols(e)
  {
    match e
    case Bin(_, l, r) =>
      ContainsExact(l, s);
      ContainsExact(r, s);
    case Not(a) => ContainsExact(a, s);
    case _ =>
  }

  /** The ways to demand a symbol: S, S=y, S=m and S!=n. */
  predicate Demands(x: Expr, s: Symbol) {
    x in {Sym(s), Compare(Equal, s, Yes), Compare(Equal, s, Mod), Compare(Unequal, s, No)}
  }

  /** A condition depends on a symbol if and only if one of its conjuncts demands it. */
  lemma {:induction false} DependsExact(e: Expr, s: Symbol)
    ensures Depends(e, s) <==> exists x :: x in Operands(AND, e) && Demands(x, s)
  {
    if Rooted(AND, e) {
      DependsExact(e.left, s);
      DependsExact(e.right, s);
      assert forall x :: x in Operands(AND, e) <==> x in Operands(AND, e.left) || x in Operands(AND, e.right);
    } else {
      assert Operands(AND, e) == [e];
      assert Demands(e, s) <==> Depends(e, s);
    }
  }

  /** The condition of a prompt. */
  ghost predicate PromptHas(x: Menus, c: Conds, n: Node, d: Dependency) {
    n in x.prompt && x.prompt[n] < |c.Props(n)| && c.Props(n)[x.prompt[n]] == d
  }

  /** An item belongs below a symbol if and only if its condition, that of its prompt or else
      its own, mentions the symbol, and either a conjunct demands the symbol or the condition
      includes that of the symbol's prompt; a symbol without prompt has none. */
  lemma AcceptsExact(x: Menus, c: Conds, p: Node, m: Node, item: Dependency, base: Dependency)
    requires if m in x.prompt then PromptHas(x, c, m, item) else item == c.Dep(m)
    requires if p in x.prompt then PromptHas(x, c, p, base) else base == None
    ensures Accepts(x, c, p, m) <==>
            && p in x.sym && item.Some? && x.sym[p] in Symbols(item.value)
            && ((exists e :: e in Operands(AND, item.value) && Demands(e, x.sym[p])) || Superset(item, base))
  {
    hide Superset, Contains, Depends, Demands;
    if p in x.sym && item.Some? {
      ContainsExact(item.value, x.sym[p]);
      DependsExact(item.value, x.sym[p]);
    }
  }
}
