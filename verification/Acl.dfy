/** Topic matching and the access-control rules. */
module Acl {
  import opened Basics
  import opened Topics

  /** Does filter `filter` match topic `topic`? (section 4.7.1 of MQTT Version 5.0, by recursion) */
  ghost predicate Matches(filter: Levels, topic: Levels) {
    if filter == [] then topic == []
    else if filter[0] == HASH then true
    else topic != [] && (filter[0] == PLUS || filter[0] == topic[0]) && Matches(filter[1..], topic[1..])
  }

  /** `topic_matches_acl_filter`. */
  method TopicMatchesFilter(topic: Text, filter: Text) returns (ok: bool)
    ensures ok == Matches(Split(filter), Split(topic))
  {
    var topicLevels, filterLevels := Split(topic), Split(filter);
    var i := 0;
    while i < |filterLevels|
      invariant 0 <= i <= |filterLevels| && i <= |topicLevels|
      invariant Matches(filterLevels, topicLevels) == Matches(filterLevels[i..], topicLevels[i..])
    {
      if filterLevels[i] == HASH {
        return true;
      }
      if i >= |topicLevels| {
        return false;
      }
      if filterLevels[i] != PLUS && filterLevels[i] != topicLevels[i] {
        return false;
      }
      assert filterLevels[i..][1..] == filterLevels[i + 1..] && topicLevels[i..][1..] == topicLevels[i + 1..];
      i := i + 1;
    }
    return i == |topicLevels|;
  }

  /** What follows a "#" does not matter. */
  lemma {:induction false} TruncatedMatchesAlike(filter: Levels, topic: Levels)
    ensures Matches(Truncate(filter), topic) <==> Matches(filter, topic)
    decreases filter
  {
    if filter != [] && filter[0] != HASH && topic != [] {
      TruncatedMatchesAlike(filter[1..], topic[1..]);
    }
  }

  /** Index of the first "#" level, or the number of levels. */
  function FirstHash(levels: Levels): (i: nat)
    ensures i <= |levels|
    ensures forall j :: 0 <= j < i ==> levels[j] != HASH
    ensures i < |levels| ==> levels[i] == HASH
  {
    if levels == [] || levels[0] == HASH then 0 else 1 + FirstHash(levels[1..])
  }

  predicate HasHash(levels: Levels) {
    FirstHash(levels) < |levels|
  }

  /** The index form of `Matches`. */
  lemma {:induction false} MatchesByIndex(filter: Levels, topic: Levels)
    ensures Matches(filter, topic) <==>
            && (if HasHash(filter) then FirstHash(filter) <= |topic| else |filter| == |topic|)
            && forall i :: 0 <= i < FirstHash(filter) ==> filter[i] == PLUS || filter[i] == topic[i]
  {
    if filter != [] && filter[0] != HASH && topic != [] {
      MatchesByIndex(filter[1..], topic[1..]);
      var h := FirstHash(filter);
      assert h == 1 + FirstHash(filter[1..]);
      if h - 1 <= |topic| - 1 {
        assert forall i :: 0 <= i < h - 1 ==> filter[1..][i] == filter[i + 1] && topic[1..][i] == topic[i + 1];
        assert (forall i :: 0 <= i < h ==> filter[i] == PLUS || filter[i] == topic[i])
            <==> (filter[0] == PLUS || filter[0] == topic[0])
                 && (forall i :: 0 <= i < h - 1 ==> filter[1..][i] == PLUS || filter[1..][i] == topic[1..][i]) by {
          if (filter[0] == PLUS || filter[0] == topic[0])
             && (forall i :: 0 <= i < h - 1 ==> filter[1..][i] == PLUS || filter[1..][i] == topic[1..][i]) {
            forall i | 0 <= i < h ensures filter[i] == PLUS || filter[i] == topic[i] {
              if i > 0 { assert filter[i] == filter[1..][i - 1]; }
            }
          }
        }
      }
    }
  }

  /** The ACL filter reaches its "#" no later than the subscription filter does. */
  predicate AclHashComesFirst(acl: Levels, filter: Levels) {
    !HasHash(filter)
    || (HasHash(acl) && FirstHash(acl) <= if FirstHash(filter) == 0 then 1 else FirstHash(filter))
  }

  /** Some topic matched by `filter` whose length is `n`, which a topic of `filter` may have. */
  function Instance(filter: Levels, n: nat): (t: Levels)
    ensures |t| == n
    ensures forall i :: 0 <= i < n ==> t[i] == if i < |filter| then filter[i] else []
  {
    seq(n, i => if 0 <= i < |filter| then filter[i] else [])
  }

  /** A topic that `filter` matches and `acl` does not, when `acl` meets its "#" too late. */
  lemma EscapingTopic(acl: Levels, filter: Levels) returns (topic: Levels)
    requires Matches(acl, filter) && !AclHashComesFirst(acl, filter)
    ensures topic != [] && Matches(filter, topic) && !Matches(acl, topic)
    ensures forall i :: 0 <= i < |topic| ==> topic[i] == [] || (i < |filter| && topic[i] == filter[i])
  {
    var h := FirstHash(filter);
    MatchesByIndex(acl, filter);
    if HasHash(acl) {
      topic := Instance(filter, if h == 0 then 1 else h);
    } else {
      topic := Instance(filter, |acl| + 1);
    }
    MatchesByIndex(filter, topic);
    MatchesByIndex(acl, topic);
  }

  lemma AclCovers(acl: Levels, filter: Levels, topic: Levels)
    requires Matches(acl, filter) && AclHashComesFirst(acl, filter)
    requires topic != [] && Matches(filter, topic)
    ensures Matches(acl, topic)
  {
    MatchesByIndex(acl, filter);
    MatchesByIndex(filter, topic);
    MatchesByIndex(acl, topic);
  }

  /** A subscription accepted under an ACL filter stays inside it, exactly when the "#"s are in order. */
  lemma AclIsTransitive(acl: Levels, filter: Levels)
    requires Matches(acl, filter)
    ensures (forall topic: Levels :: topic != [] && Matches(filter, topic) ==> Matches(acl, topic))
            <==> AclHashComesFirst(acl, filter)
  {
    if AclHashComesFirst(acl, filter) {
      forall topic: Levels | topic != [] && Matches(filter, topic) ensures Matches(acl, topic) {
        AclCovers(acl, filter, topic);
      }
    } else {
      var topic := EscapingTopic(acl, filter);
    }
  }

  lemma MatchesItself(filter: Levels)
    ensures Matches(filter, filter)
  {
    MatchesByIndex(filter, filter);
  }

  /** Everything a filter receives is inside another exactly if that matches it, with the "#"s in order. */
  lemma AclCoversExactly(acl: Levels, filter: Levels)
    requires filter != []
    ensures (forall topic: Levels :: topic != [] && Matches(filter, topic) ==> Matches(acl, topic))
            <==> Matches(acl, filter) && AclHashComesFirst(acl, filter)
  {
    MatchesItself(filter);
    if Matches(acl, filter) {
      AclIsTransitive(acl, filter);
    } else {
      assert filter != [] && Matches(filter, filter) && !Matches(acl, filter);
    }
  }

  datatype Access = ReadWrite | Read | Write | Other
  datatype Action = ReadAction | WriteAction
  datatype Rule = Rule(topic: Text, access: Access)
  datatype AuthConfig = AuthConfig(users: Option<map<Text, seq<Rule>>>)

  predicate Allows(access: Access, action: Action) {
    access == ReadWrite || (access == Read && action == ReadAction) || (access == Write && action == WriteAction)
  }

  /** What `authorize` decides: open access, or some rule of the user allows it. */
  ghost predicate Authorized(auth: AuthConfig, user: Text, topic: Text, action: Action) {
    auth.users.None?
    || (user in auth.users.value
        && exists i :: 0 <= i < |auth.users.value[user]| && RuleGrants(auth.users.value[user][i], topic, action))
  }

  ghost predicate RuleGrants(rule: Rule, topic: Text, action: Action) {
    Allows(rule.access, action) && Matches(Split(rule.topic), Split(topic))
  }

  /** `AuthConfig::authorize`. */
  method Authorize(auth: AuthConfig, user: Text, topic: Text, action: Action) returns (ok: bool)
    ensures ok <==> Authorized(auth, user, topic, action)
  {
    if auth.users.None? {
      return true;
    }
    if user in auth.users.value {
      var rules := auth.users.value[user];
      for i := 0 to |rules|
        invariant forall j :: 0 <= j < i ==> !RuleGrants(rules[j], topic, action)
      {
        if Allows(rules[i].access, action) {
          var matches := TopicMatchesFilter(topic, rules[i].topic);
          if matches {
            return true;
          }
        }
      }
    }
    return false;
  }

  /** Who may publish: everyone under open access, else who has a matching "readwrite" or "write" rule. */
  lemma MayWriteExactly(auth: AuthConfig, user: Text, topic: Text)
    ensures Authorized(auth, user, topic, WriteAction) <==>
              || auth.users.None?
              || (user in auth.users.value
                  && exists rule :: rule in auth.users.value[user] && (rule.access == ReadWrite || rule.access == Write)
                                    && Matches(Split(rule.topic), Split(topic)))
  {
    if auth.users.Some? && user in auth.users.value {
      RulesGrantByIndex(auth, user, topic, WriteAction);
    }
  }

  /** Who may subscribe: everyone under open access, else who has a matching "readwrite" or "read" rule. */
  lemma MayReadExactly(auth: AuthConfig, user: Text, topic: Text)
    ensures Authorized(auth, user, topic, ReadAction) <==>
              || auth.users.None?
              || (user in auth.users.value
                  && exists rule :: rule in auth.users.value[user] && (rule.access == ReadWrite || rule.access == Read)
                                    && Matches(Split(rule.topic), Split(topic)))
  {
    if auth.users.Some? && user in auth.users.value {
      RulesGrantByIndex(auth, user, topic, ReadAction);
    }
  }

  lemma RulesGrantByIndex(auth: AuthConfig, user: Text, topic: Text, action: Action)
    requires auth.users.Some? && user in auth.users.value
    ensures Authorized(auth, user, topic, action)
            <==> exists rule :: rule in auth.users.value[user] && RuleGrants(rule, topic, action)
  {
    var rules := auth.users.value[user];
    if rule :| rule in rules && RuleGrants(rule, topic, action) {
      var i :| 0 <= i < |rules| && rules[i] == rule;
      assert RuleGrants(rules[i], topic, action);
    }
  }

  /** Rules with any other access mode grant nothing. */
  lemma OtherModesGrantNothing(users: map<Text, seq<Rule>>, user: Text, topic: Text, action: Action)
    requires user in users ==> forall rule :: rule in users[user] ==> rule.access == Other
    ensures !Authorized(AuthConfig(Some(users)), user, topic, action)
  {
    if user in users {
      assert forall i :: 0 <= i < |users[user]| ==> users[user][i].access == Other by {
        assert forall i :: 0 <= i < |users[user]| ==> users[user][i] in users[user];
      }
    }
  }

  // ------------------------------------------------ what an admitted subscription receives

  /** A subscription to this filter gets publishes to this topic: by the filter proper, without a `$share` prefix. */
  ghost predicate Receives(filter: Text, topic: Text) {
    Matches(Split(ParseShared(filter).1), Split(topic))
  }

  /** The rule lets its user read, and reaches the filter proper with the "#"s in order. */
  ghost predicate Covers(rule: Rule, filter: Text) {
    var proper := Split(ParseShared(filter).1);
    && Allows(rule.access, ReadAction)
    && Matches(Split(rule.topic), proper) && AclHashComesFirst(Split(rule.topic), proper)
  }

  /**
   A rule lets its user read every topic that a subscription receives, shared or not, exactly if it covers the
   filter.
   */
  lemma RuleCoversExactly(rule: Rule, filter: Text)
    requires Allows(rule.access, ReadAction)
    ensures (forall topic: Text :: Receives(filter, topic) ==> RuleGrants(rule, topic, ReadAction))
            <==> Covers(rule, filter)
  {
    var acl, proper := Split(rule.topic), Split(ParseShared(filter).1);
    if Covers(rule, filter) {
      forall topic: Text | Receives(filter, topic) ensures RuleGrants(rule, topic, ReadAction) {
        AclCovers(acl, proper, Split(topic));
      }
    } else {
      var topic := UncoveredTopic(acl, proper, ParseShared(filter).1);
      assert Receives(filter, topic) && !RuleGrants(rule, topic, ReadAction);
    }
  }

  lemma UncoveredTopic(acl: Levels, proper: Levels, filter: Text) returns (topic: Text)
    requires proper == Split(filter) && !(Matches(acl, proper) && AclHashComesFirst(acl, proper))
    ensures Matches(proper, Split(topic)) && !Matches(acl, Split(topic))
  {
    if Matches(acl, proper) {
      var levels := EscapingTopic(acl, proper);
      SplitHasNoSlash(filter);
      SplitJoin(levels);
      topic := Join(levels);
    } else {
      MatchesItself(proper);
      topic := filter;
    }
  }

  /** A user with one rule that covers a filter may read every topic a subscription to it receives. */
  lemma CoveredSubscriberMayReadWhatItGets(auth: AuthConfig, user: Text, filter: Text, topic: Text)
    requires auth.users.Some? ==>
               && user in auth.users.value
               && exists i :: 0 <= i < |auth.users.value[user]| && Covers(auth.users.value[user][i], filter)
    requires Receives(filter, topic)
    ensures Authorized(auth, user, topic, ReadAction)
  {
    if auth.users.Some? {
      var rules := auth.users.value[user];
      var i :| 0 <= i < |rules| && Covers(rules[i], filter);
      RuleCoversExactly(rules[i], filter);
      assert RuleGrants(rules[i], topic, ReadAction);
    }
  }

  /** One user with one rule. */
  function OneRule(user: Text, topic: Text): AuthConfig {
    AuthConfig(Some(map[user := [Rule(topic, Read)]]))
  }

  lemma OneRuleGrants(user: Text, rule: Text, topic: Text)
    ensures Authorized(OneRule(user, rule), user, topic, ReadAction) <==> Matches(Split(rule), Split(topic))
  {
    var rules := OneRule(user, rule).users.value[user];
    assert RuleGrants(rules[0], topic, ReadAction) <==> Matches(Split(rule), Split(topic));
  }

  /** The rule "a/+" admits the subscription "a/#", which receives "a/b/c", which the user may not read. */
  lemma AclLeak(user: Text)
    ensures var rule, filter, topic: Text := [97, 47, 43], [97, 47, 35], [97, 47, 98, 47, 99];
            && Authorized(OneRule(user, rule), user, filter, ReadAction)
            && Receives(filter, topic)
            && !Authorized(OneRule(user, rule), user, topic, ReadAction)
  {
    var rule: Text, filter: Text, topic: Text := [97, 47, 43], [97, 47, 35], [97, 47, 98, 47, 99];
    AclLeakLevels();
    assert filter[0] != SHARE_PREFIX[0];
    OneRuleGrants(user, rule, filter);
    OneRuleGrants(user, rule, topic);
    AclLeakMatches([97], [98], [99]);
  }

  lemma AclLeakLevels()
    ensures Split([97, 47, 43]) == [[97], PLUS] && Split([97, 47, 35]) == [[97], HASH]
    ensures Split([97, 47, 98, 47, 99]) == [[97], [98], [99]]
  {
    var a: Text, b: Text, c: Text := [97], [98], [99];
    SplitFlat(PLUS);
    SplitFlat(HASH);
    SplitFlat(c);
    SplitAt(a, PLUS);
    SplitAt(a, HASH);
    SplitAt(b, c);
    SplitAt(a, b + [SLASH] + c);
    assert a + [SLASH] + PLUS == [97, 47, 43] && a + [SLASH] + HASH == [97, 47, 35];
    assert a + [SLASH] + (b + [SLASH] + c) == [97, 47, 98, 47, 99];
  }

  lemma AclLeakMatches(a: Text, b: Text, c: Text)
    requires a != HASH && b != HASH
    ensures Matches([a, PLUS], [a, HASH]) && Matches([a, HASH], [a, b, c]) && !Matches([a, PLUS], [a, b, c])
  {
    MatchesByIndex([a, PLUS], [a, HASH]);
    MatchesByIndex([a, HASH], [a, b, c]);
    MatchesByIndex([a, PLUS], [a, b, c]);
  }

  /**
   Shared filters are checked with their prefix: the rule "$share/#" admits every shared subscription, which receives
   whatever its filter proper matches, and the user may read none of that.
   */
  lemma SharedFiltersSlipThrough(user: Text, group: Text, proper: Text, topic: Text)
    requires SLASH !in group && Matches(Split(proper), Split(topic)) && Split(topic)[0] != SHARE_PREFIX[..6]
    ensures var rule, filter := SHARE_PREFIX + HASH, SHARE_PREFIX + group + [SLASH] + proper;
            && Authorized(OneRule(user, rule), user, filter, ReadAction)
            && Receives(filter, topic)
            && !Authorized(OneRule(user, rule), user, topic, ReadAction)
  {
    var share := SHARE_PREFIX[..6];
    var rule, filter := SHARE_PREFIX + HASH, SHARE_PREFIX + group + [SLASH] + proper;
    assert rule == share + [SLASH] + HASH && filter == share + [SLASH] + (group + [SLASH] + proper);
    SplitFlat(HASH);
    SplitAt(share, HASH);
    SplitAt(group, proper);
    SplitAt(share, group + [SLASH] + proper);
    ParseSharedOf(group, proper);
    OneRuleGrants(user, rule, filter);
    OneRuleGrants(user, rule, topic);
    MatchesByIndex([share, HASH], Split(filter));
    MatchesByIndex([share, HASH], Split(topic));
  }
}
