/**
 * The call-site bookkeeping the generated dispatch code drives: the
 * match flag, the matchmaker probe site, the site's first-level rule set
 * and the binder's shared rule cache.
 *
 * How a rule set adds a rule or promotes one, and how the shared cache
 * promotes one, is not part of this model: each object carries the
 * operation it applies (add, move), so nothing here depends on capacity or
 * on where a promoted rule lands.
 */
module CallSiteOps {
  import opened Wrappers

  /** An entry of the shared rule cache; Target is its compiled delegate. */
  datatype CallSiteRule<T> = CallSiteRule(target: T)

  /** The site's first-level rules. */
  class SmallRuleSet<T> {
    var rules: seq<T>
    const add: (seq<T>, T) -> seq<T>
    const move: (seq<T>, int) -> seq<T>

    constructor (rules: seq<T>, add: (seq<T>, T) -> seq<T>, move: (seq<T>, int) -> seq<T>)
      ensures this.rules == rules && this.add == add && this.move == move
    {
      this.rules := rules;
      this.add := add;
      this.move := move;
    }

    /**
     * A new set holding this set's rules with the rule added. That the set
     * is freshly allocated and this one left as it was is this model's
     * reading: the method's own code is not part of this model.
     */
    method AddRule(rule: T) returns (s: SmallRuleSet<T>)
      ensures fresh(s) && s.rules == add(rules, rule) && s.add == add && s.move == move
    {
      s := new SmallRuleSet(add(rules, rule), add, move);
    }

    /** Promotes the rule at index i, in place. */
    method MoveRule(i: int)
      modifies this
      ensures rules == move(old(rules), i)
    {
      rules := move(rules, i);
    }
  }

  /** The binder's rule cache, shared by every site bound to an equal binder. */
  class RuleCache<T> {
    var rules: seq<CallSiteRule<T>>
    const move: (seq<CallSiteRule<T>>, T, int) -> seq<CallSiteRule<T>>

    constructor (rules: seq<CallSiteRule<T>>, move: (seq<CallSiteRule<T>>, T, int) -> seq<CallSiteRule<T>>)
      ensures this.rules == rules && this.move == move
    {
      this.rules := rules;
      this.move := move;
    }

    /** Promotes the given rule, found at index i, in place. */
    method MoveRule(rule: T, i: int)
      modifies this
      ensures rules == move(old(rules), rule, i)
    {
      rules := move(rules, rule, i);
    }
  }

  /**
   * A call site: the match flag, its rule set (null until the first rule
   * is added), its binder's rule cache, and the operations new rule sets
   * of this site use.
   */
  class CallSite<T> {
    var matchFlag: bool
    var rules: SmallRuleSet?<T>
    const cache: RuleCache<T>
    const add: (seq<T>, T) -> seq<T>
    const move: (seq<T>, int) -> seq<T>

    constructor (cache: RuleCache<T>, add: (seq<T>, T) -> seq<T>, move: (seq<T>, int) -> seq<T>)
      ensures !matchFlag && rules == null
      ensures this.cache == cache && this.add == add && this.move == move
    {
      matchFlag := false;
      rules := null;
      this.cache := cache;
      this.add := add;
      this.move := move;
    }

    /**
     * A fresh site with no rules of its own. That it shares this site's
     * binder (and so its rule cache) and rule-set operations is this
     * model's reading: the method's own code is not part of this model.
     */
    method CreateMatchMaker() returns (mm: CallSite<T>)
      ensures fresh(mm) && mm.rules == null
      ensures mm.cache == cache && mm.add == add && mm.move == move
    {
      mm := new CallSite(cache, add, move);
    }
  }

  /** The probe site: fresh, with its match flag set; the original site is not touched. */
  method CreateMatchmaker<T>(site: CallSite<T>) returns (mm: CallSite<T>)
    ensures fresh(mm) && mm.matchFlag && mm.rules == null
    ensures mm.cache == site.cache
  {
    mm := site.CreateMatchMaker();
    ClearMatch(mm);
  }

  /** Returns the flag as it was and leaves it false. */
  method SetNotMatched<T>(site: CallSite<T>) returns (res: bool)
    modifies site
    ensures res == old(site.matchFlag) && !site.matchFlag
    ensures site.rules == old(site.rules)
  {
    res := site.matchFlag;
    site.matchFlag := false;
  }

  /** Reads the flag; nothing changes. */
  method GetMatch<T>(site: CallSite<T>) returns (m: bool)
    ensures m == site.matchFlag
  {
    m := site.matchFlag;
  }

  /** Sets the flag: the probe starts out matched. */
  method ClearMatch<T>(site: CallSite<T>)
    modifies site
    ensures site.matchFlag && site.rules == old(site.rules)
  {
    site.matchFlag := true;
  }

  /**
   * The first rule creates a set holding just that rule; a later rule
   * replaces the set by the one AddRule builds from it. The match flag is
   * left alone; that the new set is fresh and the previous one untouched
   * rests on this model's reading of SmallRuleSet.AddRule.
   */
  method AddRule<T>(site: CallSite<T>, rule: T)
    modifies site
    ensures site.matchFlag == old(site.matchFlag)
    ensures site.rules != null && fresh(site.rules)
    ensures old(site.rules) == null ==> site.rules.rules == [rule]
    ensures old(site.rules) != null ==>
      site.rules.rules == old(site.rules).add(old(site.rules.rules), rule)
    ensures site.rules.add == (if old(site.rules) == null then site.add else old(site.rules).add)
    ensures site.rules.move == (if old(site.rules) == null then site.move else old(site.rules).move)
  {
    if site.rules == null {
      site.rules := new SmallRuleSet([rule], site.add, site.move);
    } else {
      site.rules := site.rules.AddRule(rule);
    }
  }

  /** Promotes the matched rule only when its index is above 1. */
  method UpdateRules<T>(site: CallSite<T>, matched: int)
    requires matched > 1 ==> site.rules != null
    modifies site.rules
    ensures site.rules != null && matched <= 1 ==> site.rules.rules == old(site.rules.rules)
    ensures matched > 1 ==> site.rules.rules == site.rules.move(old(site.rules.rules), matched)
  {
    if matched > 1 {
      site.rules.MoveRule(matched);
    }
  }

  /** The site's rules, or None (null) when it has no rule set yet. */
  method GetRules<T>(site: CallSite<T>) returns (r: Option<seq<T>>)
    ensures r.None? <==> site.rules == null
    ensures site.rules != null ==> r == Some(site.rules.rules)
  {
    if site.rules == null {
      r := None;
    } else {
      r := Some(site.rules.rules);
    }
  }

  method GetRuleCache<T>(site: CallSite<T>) returns (c: RuleCache<T>)
    ensures c == site.cache
  {
    c := site.cache;
  }

  /** Promotes a cached rule only when its index is above 1. */
  method MoveRule<T>(cache: RuleCache<T>, rule: T, i: int)
    modifies cache
    ensures i <= 1 ==> cache.rules == old(cache.rules)
    ensures i > 1 ==> cache.rules == cache.move(old(cache.rules), rule, i)
  {
    if i > 1 {
      cache.MoveRule(rule, i);
    }
  }

  /** Every cached rule's Target, in the cache's order, one per rule. */
  method GetCachedRules<T>(cache: RuleCache<T>) returns (targets: seq<T>)
    ensures |targets| == |cache.rules|
    ensures forall k :: 0 <= k < |targets| ==> targets[k] == cache.rules[k].target
  {
    var rules := cache.rules;
    targets := [];
    var i := 0;
    while i < |rules|
      invariant 0 <= i <= |rules|
      invariant |targets| == i
      invariant forall k :: 0 <= k < i ==> targets[k] == rules[k].target
    {
      targets := targets + [rules[i].target];
      i := i + 1;
    }
  }
}
