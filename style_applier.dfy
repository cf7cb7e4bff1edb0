/** The style applier: each DOM node gets the property map of the CSS rules
    whose selectors name its tag, and the styled tree follows the DOM tree
    node for node.

    `SelectorPasses`, `RulePasses` and `Cascade` list the declarations the
    loops of `applyStyles` assign, in the order they assign them;
    `StyleValues` is the map those assignments leave. `ApplyStyles` is the
    recursive routine with its three nested loops, proved to build
    `Styled`. */
module StyleApplier {
  import opened Common
  import opened Dom
  import opened Css

  /** A styled node: the DOM node it styles, its specified values and its
      styled children. */
  datatype StyledNode = StyledNode(domNode: DomNode, specifiedValues: map<string, string>, children: seq<StyledNode>)

  /** Only elements match, and only by tag name. */
  predicate Matches(node: DomNode, selector: Selector) {
    node.kind == ElementNode && node.value == selector.tagName
  }

  /** Some selector of the list, from index `j` on, matches the node. */
  predicate MatchedFrom(node: DomNode, selectors: seq<Selector>, j: nat) {
    exists k :: j <= k < |selectors| && Matches(node, selectors[k])
  }

  /** The selector loop of one rule from selector `j`, with `acc` the
      declarations assigned so far: each matching selector assigns all the
      rule's declarations once more. */
  function SelectorPasses(node: DomNode, rule: CssRule, j: nat, acc: seq<Declaration>): seq<Declaration>
    decreases |rule.selectors| - j
  {
    if j >= |rule.selectors| then acc
    else
      SelectorPasses(node, rule, j + 1,
                     if Matches(node, rule.selectors[j]) then acc + rule.declarations else acc)
  }

  /** The rule loop from rule `i`. */
  function RulePasses(node: DomNode, rules: seq<CssRule>, i: nat, acc: seq<Declaration>): seq<Declaration>
    decreases |rules| - i
  {
    if i >= |rules| then acc
    else RulePasses(node, rules, i + 1, SelectorPasses(node, rules[i], 0, acc))
  }

  /** Every assignment `applyStyles` makes on one node, in order. */
  function Cascade(node: DomNode, rules: seq<CssRule>): seq<Declaration> {
    RulePasses(node, rules, 0, [])
  }

  /** The specified values of one node. */
  function StyleValues(node: DomNode, rules: seq<CssRule>): map<string, string> {
    AssignAll(map[], Cascade(node, rules))
  }

  /** What one rule contributes on its own: its declarations, last one
      winning, when any of its selectors matches. */
  function RuleValues(node: DomNode, rule: CssRule): map<string, string> {
    if MatchedFrom(node, rule.selectors, 0) then AssignAll(map[], rule.declarations) else map[]
  }

  /** The styled tree `applyStyles` builds. */
  function Styled(node: DomNode, sheet: Stylesheet): StyledNode
    decreases node
  {
    StyledNode(node, StyleValues(node, sheet.rules),
               seq(|node.children|, j requires 0 <= j < |node.children| => Styled(node.children[j], sheet)))
  }

  /** The DOM tree a styled tree styles, rebuilt from its `domNode` fields
      and its children. */
  function Unstyled(sn: StyledNode): DomNode
    decreases sn
  {
    DomNode(sn.domNode.kind, sn.domNode.value,
            seq(|sn.children|, j requires 0 <= j < |sn.children| => Unstyled(sn.children[j])))
  }

  /** `applyStyles`: the node's map is filled by the nested rule, selector
      and declaration loops, then the children are styled in order. */
  method ApplyStyles(root: DomNode, sheet: Stylesheet) returns (styled: StyledNode)
    ensures styled == Styled(root, sheet)
    decreases root
  {
    var rules := sheet.rules;
    var values: map<string, string> := map[];
    ghost var pairs: seq<Declaration> := [];
    var i := 0;
    while i < |rules|
      invariant 0 <= i <= |rules|
      invariant values == AssignAll(map[], pairs)
      invariant RulePasses(root, rules, 0, []) == RulePasses(root, rules, i, pairs)
    {
      var rule := rules[i];
      ghost var before := pairs;
      var j := 0;
      while j < |rule.selectors|
        invariant 0 <= j <= |rule.selectors|
        invariant values == AssignAll(map[], pairs)
        invariant SelectorPasses(root, rule, 0, before) == SelectorPasses(root, rule, j, pairs)
      {
        if Matches(root, rule.selectors[j]) {
          ghost var start := pairs;
          var k := 0;
          while k < |rule.declarations|
            invariant 0 <= k <= |rule.declarations|
            invariant values == AssignAll(map[], pairs)
            invariant pairs == start + rule.declarations[..k]
          {
            var declaration := rule.declarations[k];
            AssignAllSnoc(map[], pairs, declaration.0, declaration.1);
            values := values[declaration.0 := declaration.1];
            pairs := pairs + [declaration];
            assert rule.declarations[..k + 1] == rule.declarations[..k] + [declaration];
            k := k + 1;
          }
          assert rule.declarations[..k] == rule.declarations;
        }
        j := j + 1;
      }
      i := i + 1;
    }
    var children: seq<StyledNode> := [];
    var c := 0;
    while c < |root.children|
      invariant 0 <= c <= |root.children|
      invariant |children| == c
      invariant forall m :: 0 <= m < c ==> children[m] == Styled(root.children[m], sheet)
    {
      var child := ApplyStyles(root.children[c], sheet);
      children := children + [child];
      c := c + 1;
    }
    styled := StyledNode(root, values, children);
  }

  // ---------------------------------------------------------------------
  // The cascade.

  /** The selector loop over a rule assigns the rule's declarations once
      when some selector matches and not at all otherwise; further matching
      selectors change nothing. */
  lemma {:induction false} SelectorPassesValues(m: map<string, string>, node: DomNode, rule: CssRule, j: nat, acc: seq<Declaration>)
    ensures AssignAll(m, SelectorPasses(node, rule, j, acc))
         == if MatchedFrom(node, rule.selectors, j)
            then AssignAll(AssignAll(m, acc), rule.declarations)
            else AssignAll(m, acc)
    decreases |rule.selectors| - j
  {
    if j < |rule.selectors| {
      var sel := rule.selectors[j];
      if Matches(node, sel) {
        SelectorPassesValues(m, node, rule, j + 1, acc + rule.declarations);
        AssignAllAppend(m, acc, rule.declarations);
        AssignAllIdempotent(AssignAll(m, acc), rule.declarations);
        assert MatchedFrom(node, rule.selectors, j);
      } else {
        SelectorPassesValues(m, node, rule, j + 1, acc);
        assert MatchedFrom(node, rule.selectors, j) == MatchedFrom(node, rule.selectors, j + 1) by {
          if MatchedFrom(node, rule.selectors, j) {
            var k :| j <= k < |rule.selectors| && Matches(node, rule.selectors[k]);
            assert k != j;
          }
        }
      }
    }
  }

  /** A rule added at the end of the stylesheet runs last. */
  lemma {:induction false} RulePassesSnoc(node: DomNode, rules: seq<CssRule>, rule: CssRule, i: nat, acc: seq<Declaration>)
    requires i <= |rules|
    ensures RulePasses(node, rules + [rule], i, acc) == SelectorPasses(node, rule, 0, RulePasses(node, rules, i, acc))
    decreases |rules| - i
  {
    if i < |rules| {
      assert (rules + [rule])[i] == rules[i];
      RulePassesSnoc(node, rules, rule, i + 1, SelectorPasses(node, rules[i], 0, acc));
    } else {
      assert (rules + [rule])[i] == rule;
    }
  }

  /** The cascade, rule by rule: a later rule overrides an earlier one
      property by property; within a rule the last declaration of a
      property wins; a rule several of whose selectors match counts once;
      a rule none of whose selectors matches changes nothing. */
  lemma StyleValuesSnoc(node: DomNode, rules: seq<CssRule>, rule: CssRule)
    ensures StyleValues(node, rules + [rule]) == StyleValues(node, rules) + RuleValues(node, rule)
  {
    var before := Cascade(node, rules);
    RulePassesSnoc(node, rules, rule, 0, []);
    SelectorPassesValues(map[], node, rule, 0, before);
    AssignAllOverride(AssignAll(map[], before), rule.declarations);
    var m := AssignAll(map[], before);
    assert m + map[] == m;
  }

  /** A text node matches no selector, and gets no values. */
  lemma TextNodeUnstyled(node: DomNode, rules: seq<CssRule>)
    requires node.kind == TextNode
    ensures StyleValues(node, rules) == map[]
  {
    TextNodePasses(node, rules, 0, []);
  }

  lemma {:induction false} TextNodePasses(node: DomNode, rules: seq<CssRule>, i: nat, acc: seq<Declaration>)
    requires node.kind == TextNode
    ensures RulePasses(node, rules, i, acc) == acc
    decreases |rules| - i
  {
    if i < |rules| {
      TextNodeSelectors(node, rules[i], 0, acc);
      TextNodePasses(node, rules, i + 1, acc);
    }
  }

  lemma {:induction false} TextNodeSelectors(node: DomNode, rule: CssRule, j: nat, acc: seq<Declaration>)
    requires node.kind == TextNode
    ensures SelectorPasses(node, rule, j, acc) == acc
    decreases |rule.selectors| - j
  {
    if j < |rule.selectors| {
      TextNodeSelectors(node, rule, j + 1, acc);
    }
  }

  /** A rule applies to a node when one of its selectors matches it. */
  predicate Applies(node: DomNode, rule: CssRule) {
    MatchedFrom(node, rule.selectors, 0)
  }

  /** Some applying rule declares the property. */
  predicate Declared(node: DomNode, rules: seq<CssRule>, property: string) {
    exists i, d :: 0 <= i < |rules| && 0 <= d < |rules[i].declarations| &&
      Applies(node, rules[i]) && rules[i].declarations[d].0 == property
  }

  /** A property has a value exactly when some rule with a matching
      selector declares it. */
  lemma {:induction false} StyleValuesDomain(node: DomNode, rules: seq<CssRule>, property: string)
    ensures property in StyleValues(node, rules) <==> Declared(node, rules, property)
    decreases |rules|
  {
    if rules != [] {
      var init := rules[..|rules| - 1];
      var last := rules[|rules| - 1];
      assert rules == init + [last];
      StyleValuesSnoc(node, init, last);
      StyleValuesDomain(node, init, property);
      AssignAllDomain(map[], last.declarations);
      if Declared(node, rules, property) && !Declared(node, init, property) {
        var i, d :| 0 <= i < |rules| && 0 <= d < |rules[i].declarations| &&
          Applies(node, rules[i]) && rules[i].declarations[d].0 == property;
      }
      if Declared(node, init, property) {
        var i, d :| 0 <= i < |init| && 0 <= d < |init[i].declarations| &&
          Applies(node, init[i]) && init[i].declarations[d].0 == property;
        assert rules[i] == init[i];
      }
      if Applies(node, last) && property in AssignAll(map[], last.declarations) {
        var d :| 0 <= d < |last.declarations| && last.declarations[d].0 == property;
        assert rules[|rules| - 1] == last;
      }
    }
  }

  /** The value kept for a property is the one the latest applying rule
      declaring it gives, and within that rule its latest declaration. */
  lemma {:induction false} LatestDeclarationWins(node: DomNode, rules: seq<CssRule>, i: nat, d: nat)
    requires i < |rules| && d < |rules[i].declarations| && Applies(node, rules[i])
    requires forall e :: d < e < |rules[i].declarations| ==>
               rules[i].declarations[e].0 != rules[i].declarations[d].0
    requires forall r, e :: i < r < |rules| && 0 <= e < |rules[r].declarations| && Applies(node, rules[r]) ==>
               rules[r].declarations[e].0 != rules[i].declarations[d].0
    ensures rules[i].declarations[d].0 in StyleValues(node, rules)
    ensures StyleValues(node, rules)[rules[i].declarations[d].0] == rules[i].declarations[d].1
    decreases |rules|
  {
    var init := rules[..|rules| - 1];
    var last := rules[|rules| - 1];
    var (property, value) := rules[i].declarations[d];
    assert rules == init + [last];
    StyleValuesSnoc(node, init, last);
    if i == |rules| - 1 {
      AssignAllLastWins(map[], last.declarations, d);
    } else {
      assert init[i] == rules[i];
      LatestDeclarationWins(node, init, i, d);
      if Applies(node, last) {
        AssignAllDomain(map[], last.declarations);
        assert property !in AssignAll(map[], last.declarations);
      }
    }
  }

  // ---------------------------------------------------------------------
  // The styled tree.

  /** The styled tree has the DOM tree's shape: each styled node refers to
      its DOM node, with as many children, in the same order. */
  lemma {:induction false} StyledShape(node: DomNode, sheet: Stylesheet)
    ensures Unstyled(Styled(node, sheet)) == node
    decreases node
  {
    var sn := Styled(node, sheet);
    forall j | 0 <= j < |node.children|
      ensures Unstyled(sn.children[j]) == node.children[j]
    {
      StyledShape(node.children[j], sheet);
    }
    assert Unstyled(sn).children == node.children;
  }
}
