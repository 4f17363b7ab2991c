/**
 * The provider and navigation logic of src/components/Sidebar.tsx: the built-in providers
 * followed by the custom ones, the first provider whose id matches, the models it offers,
 * and the fixed list of panels.
 */
module Sidebar {
  import opened Wrappers
  import opened Types

  /** `[...AI_PROVIDERS, ...customProviders]` */
  function AllProviders(builtins: seq<Provider>, custom: seq<Provider>): (all: seq<Provider>)
    ensures |all| == |builtins| + |custom|
    ensures all[..|builtins|] == builtins && all[|builtins|..] == custom
  {
    builtins + custom
  }

  /**
   * `providers.find(p => p.id === id)`: the first provider with that id, none when no
   * provider has it.
   */
  function FindProvider(providers: seq<Provider>, id: string): (found: Option<Provider>)
    ensures found.None? <==> forall i :: 0 <= i < |providers| ==> providers[i].id != id
    ensures found.Some? ==> exists i :: 0 <= i < |providers| && providers[i] == found.value
                                      && found.value.id == id
                                      && forall j :: 0 <= j < i ==> providers[j].id != id
  {
    if providers == [] then None
    else if providers[0].id == id then Some(providers[0])
    else
      var found := FindProvider(providers[1..], id);
      assert forall i :: 1 <= i < |providers| ==> providers[i] == providers[1..][i - 1];
      if found.Some? then
        var i :| 0 <= i < |providers[1..]| && providers[1..][i] == found.value && found.value.id == id
                 && forall j :: 0 <= j < i ==> providers[1..][j].id != id;
        assert providers[i + 1] == found.value && forall j :: 0 <= j < i + 1 ==> providers[j].id != id;
        found
      else found
  }

  /**
   * Searching a concatenation searches the first part, and the second only when the first has
   * no match: a built-in provider shadows a custom one with the same id.
   */
  lemma {:induction false} FindInConcatenation(builtins: seq<Provider>, custom: seq<Provider>, id: string)
    ensures FindProvider(AllProviders(builtins, custom), id)
         == if FindProvider(builtins, id).Some? then FindProvider(builtins, id) else FindProvider(custom, id)
    decreases |builtins|
  {
    if builtins != [] {
      assert (builtins + custom)[1..] == builtins[1..] + custom;
      FindInConcatenation(builtins[1..], custom, id);
    } else {
      assert builtins + custom == custom;
    }
  }

  /** A built-in with the id wins over every custom provider. */
  lemma BuiltinShadowsCustom(builtins: seq<Provider>, custom: seq<Provider>, k: nat, id: string)
    requires k < |builtins| && builtins[k].id == id
    ensures FindProvider(AllProviders(builtins, custom), id) == FindProvider(builtins, id)
    ensures FindProvider(AllProviders(builtins, custom), id).Some?
  {
    FindInConcatenation(builtins, custom, id);
  }

  /** A custom provider is reached only when no built-in has its id. */
  lemma CustomReachedWhenNoBuiltin(builtins: seq<Provider>, custom: seq<Provider>, id: string)
    requires forall i :: 0 <= i < |builtins| ==> builtins[i].id != id
    ensures FindProvider(AllProviders(builtins, custom), id) == FindProvider(custom, id)
  {
    FindInConcatenation(builtins, custom, id);
  }

  /**
   * `currentProvider?.models || []`: the models of the selected provider in their order, and
   * none for an unknown id.
   */
  function AvailableModels(builtins: seq<Provider>, custom: seq<Provider>, selected: string): (models: seq<ModelOption>)
    ensures FindProvider(AllProviders(builtins, custom), selected).Some? ==>
              models == FindProvider(AllProviders(builtins, custom), selected).value.models
    ensures (forall i :: 0 <= i < |AllProviders(builtins, custom)| ==> AllProviders(builtins, custom)[i].id != selected) ==>
              models == []
  {
    match FindProvider(AllProviders(builtins, custom), selected)
    case Some(p) => p.models
    case None => []
  }

  /** The navigation entries, in the order they are shown: five entries, none twice. */
  function NavItems(): (items: seq<PanelType>)
    ensures |items| == 5
    ensures items[0] == Chat && items[1] == Editor && items[2] == Terminal && items[3] == Files && items[4] == Agents
    ensures forall i, j :: 0 <= i < j < |items| ==> items[i] != items[j]
  {
    [Chat, Editor, Terminal, Files, Agents]
  }

  /** Every panel has a navigation entry, so the five entries are exactly the panels. */
  lemma EveryPanelNavigable(p: PanelType)
    ensures p in NavItems()
  {
    var items := NavItems();
    match p
    case Chat => assert items[0] == p;
    case Editor => assert items[1] == p;
    case Terminal => assert items[2] == p;
    case Files => assert items[3] == p;
    case Agents => assert items[4] == p;
  }
}
