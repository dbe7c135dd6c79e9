/** Turning API `Pod`s into backend pods, matching pods against service
    selectors, and rendering a selector as a label query. */
module ParsePods {
  import opened Basics
  import opened Kube
  import opened Records
  import opened Strings

  /** The map entry one API pod contributes, if it has a name, a spec and an
      assigned node. */
  function PodEntry(pod: Pod, serviceName: string): Option<(string, BackendPod)>
  {
    match (pod.metadata.name, pod.spec)
    case (Some(name), Some(spec)) =>
      if spec.nodeName.Some? then Some((name, BackendPod(spec.nodeName.value, serviceName))) else None
    case _ => None
  }

  /** The API pod can back a service: it has a name, a spec and an assigned node. */
  predicate Placed(pod: Pod)
  {
    pod.metadata.name.Some? && pod.spec.Some? && pod.spec.value.nodeName.Some?
  }

  /** `map_pods`: every pod kept is attributed to `serviceName`. */
  function MapPods(pods: seq<Pod>, serviceName: string): (m: map<string, BackendPod>)
    ensures forall name :: name in m ==> m[name].associatedService == serviceName
    ensures forall name :: name in m ==>
      exists i :: 0 <= i < |pods| && Placed(pods[i]) && pods[i].metadata.name == Some(name)
                  && m[name].node == pods[i].spec.value.nodeName.value
  {
    CollectMap(pods, (p: Pod) => PodEntry(p, serviceName))
  }

  /** A name is kept exactly when some placed pod carries it. */
  lemma MapPodsKeys(pods: seq<Pod>, serviceName: string, name: string)
    ensures name in MapPods(pods, serviceName) <==>
      exists i :: 0 <= i < |pods| && Placed(pods[i]) && pods[i].metadata.name == Some(name)
  {
    CollectKeys(pods, (p: Pod) => PodEntry(p, serviceName), name);
  }

  /** A single pod maps to at most one entry, under its own name. */
  lemma MapPodsSingle(pod: Pod, serviceName: string)
    ensures Placed(pod) ==>
      MapPods([pod], serviceName)
      == map[pod.metadata.name.value := BackendPod(pod.spec.value.nodeName.value, serviceName)]
    ensures !Placed(pod) ==> MapPods([pod], serviceName) == map[]
  {
  }

  /** Every key of the selector is a label of the pod with the same value. */
  predicate Matches(selector: Selector, labels: map<string, string>)
  {
    forall key :: key in selector ==> key in labels && labels[key] == selector[key]
  }

  /** The selector test inside `find_svc_for_pod`: walk the selector in key
      order and stop at the first key the labels lack or disagree on. */
  method SelectorMatches(selector: Selector, labels: map<string, string>) returns (ok: bool)
    ensures ok <==> Matches(selector, labels)
  {
    ok := true;
    var keys := SortedKeys(selector.Keys);
    var i := 0;
    while i < |keys|
      invariant 0 <= i <= |keys|
      invariant forall j :: 0 <= j < i ==> keys[j] in labels && labels[keys[j]] == selector[keys[j]]
    {
      var key := keys[i];
      if key in labels {
        if selector[key] != labels[key] {
          ok := false;
          break;
        }
      } else {
        ok := false;
        break;
      }
      i := i + 1;
    }
  }

  /** `find_svc_for_pod`: some service whose selector the pod's labels
      satisfy, if any. The services live in a hash map whose iteration order
      is unspecified, so which of several matching services is found is left
      open. */
  method FindSvcForPod(services: map<string, BalancedService>, pod: Pod)
    returns (found: Option<(string, BalancedService)>)
    ensures found.None? <==> forall name :: name in services ==> !Matches(services[name].selector, pod.metadata.labels)
    ensures found.Some? ==> found.value.0 in services && found.value.1 == services[found.value.0]
                            && Matches(found.value.1.selector, pod.metadata.labels)
  {
    var unseen := services.Keys;
    while unseen != {}
      invariant unseen <= services.Keys
      invariant forall name :: name in services && name !in unseen ==> !Matches(services[name].selector, pod.metadata.labels)
      decreases unseen
    {
      var name :| name in unseen;
      var ok := SelectorMatches(services[name].selector, pod.metadata.labels);
      if ok {
        return Some((name, services[name]));
      }
      unseen := unseen - {name};
    }
    return None;
  }

  /** The empty selector matches every pod. */
  lemma EmptySelectorMatchesAll(labels: map<string, string>)
    ensures Matches(map[], labels)
  {
  }

  /** Extra labels on a pod never prevent a match. */
  lemma MatchesMoreLabels(selector: Selector, labels: map<string, string>, more: map<string, string>)
    requires Matches(selector, labels)
    requires forall key :: key in labels ==> key in more && more[key] == labels[key]
    ensures Matches(selector, more)
  {
  }

  /** `app=web` matches a pod labelled `app=web, tier=fe`, and neither one
      labelled `app=api` nor one with no labels. */
  lemma MatchesExample()
    ensures Matches(map["app" := "web"], map["app" := "web", "tier" := "fe"])
    ensures !Matches(map["app" := "web"], map["app" := "api"])
    ensures !Matches(map["app" := "web"], map[])
  {
    assert "app" in map["app" := "web"];
  }

  /** One `key=value` term of a label query. */
  function Term(key: string, value: string): string
  {
    key + "=" + value
  }

  /** The terms of the selector entries for `keys`, in that order. */
  function Terms(selector: Selector, keys: seq<string>): (r: seq<string>)
    requires forall i :: 0 <= i < |keys| ==> keys[i] in selector
    ensures |r| == |keys|
    ensures forall i :: 0 <= i < |keys| ==> r[i] == Term(keys[i], selector[keys[i]])
  {
    if keys == [] then [] else [Term(keys[0], selector[keys[0]])] + Terms(selector, keys[1..])
  }

  /** `build_selector`: the `key=value` terms in ascending key order (the
      order a `BTreeMap` iterates in), joined by commas. */
  function BuildSelector(selector: Selector): (r: string)
    ensures r == "" <==> selector == map[]
  {
    var keys := SortedKeys(selector.Keys);
    var terms := Terms(selector, keys);
    assert selector != map[] ==> |terms| > 0 && |terms[0]| > 0 by {
      if selector != map[] {
        var k :| k in selector;
        assert |keys| > 0;
      }
    }
    Join(terms, ',')
  }

  /** Kubernetes label keys and values never contain the query syntax's
      separators. */
  predicate PlainLabels(selector: Selector)
  {
    forall key :: key in selector ==> ',' !in key && '=' !in key && ',' !in selector[key] && '=' !in selector[key]
  }

  /** Reads one `key=value` term. */
  function ParseTerm(t: string): Option<(string, string)>
  {
    var kv := Split(t, '=');
    if |kv| == 2 then Some((kv[0], kv[1])) else None
  }

  /** Reads a list of terms into a selector. */
  function ParseTerms(terms: seq<string>): Option<Selector>
  {
    if terms == [] then Some(map[])
    else
      match (ParseTerm(terms[0]), ParseTerms(terms[1..]))
      case (Some((k, v)), Some(rest)) => Some(rest[k := v])
      case _ => None
  }

  /** A minimal reader of the comma-separated `key=value` terms that
      `build_selector` writes. */
  function ParseSelector(query: string): Option<Selector>
  {
    if query == "" then Some(map[]) else ParseTerms(Split(query, ','))
  }

  lemma {:induction false} ParseTermOfTerm(key: string, value: string)
    requires '=' !in key && '=' !in value
    ensures ParseTerm(Term(key, value)) == Some((key, value))
  {
    SplitAtFirst(key, '=', value);
    SplitWithout(value, '=');
  }

  lemma {:induction false} ParseTermsOfTerms(selector: Selector, keys: seq<string>)
    requires forall i :: 0 <= i < |keys| ==> keys[i] in selector
    requires PlainLabels(selector)
    ensures ParseTerms(Terms(selector, keys)).Some?
    ensures forall k :: k in ParseTerms(Terms(selector, keys)).value <==> k in keys
    ensures forall k :: k in ParseTerms(Terms(selector, keys)).value ==> ParseTerms(Terms(selector, keys)).value[k] == selector[k]
  {
    if keys != [] {
      var terms := Terms(selector, keys);
      assert terms[1..] == Terms(selector, keys[1..]);
      ParseTermsOfTerms(selector, keys[1..]);
      ParseTermOfTerm(keys[0], selector[keys[0]]);
      assert keys == [keys[0]] + keys[1..];
    }
  }

  /** No term of a plain selector holds a comma. */
  lemma TermsWithoutComma(selector: Selector, keys: seq<string>)
    requires forall i :: 0 <= i < |keys| ==> keys[i] in selector
    requires PlainLabels(selector)
    ensures forall i :: 0 <= i < |keys| ==> ',' !in Terms(selector, keys)[i]
  {
  }

  /** Splitting the query at commas gives back the terms, in key order. */
  lemma SplitBuiltSelector(selector: Selector)
    requires selector != map[]
    requires PlainLabels(selector)
    ensures Split(BuildSelector(selector), ',') == Terms(selector, SortedKeys(selector.Keys))
  {
    var keys := SortedKeys(selector.Keys);
    TermsWithoutComma(selector, keys);
    SplitJoin(Terms(selector, keys), ',');
  }

  /** The query `build_selector` writes reads back as the same selector:
      no entry is lost, added or altered. */
  lemma BuildSelectorRoundTrip(selector: Selector)
    requires PlainLabels(selector)
    ensures ParseSelector(BuildSelector(selector)) == Some(selector)
  {
    if selector != map[] {
      var keys := SortedKeys(selector.Keys);
      SplitBuiltSelector(selector);
      ParseTermsOfTerms(selector, keys);
      var parsed := ParseTerms(Terms(selector, keys)).value;
      assert parsed.Keys == selector.Keys;
      assert parsed == selector;
    }
  }

  /** The terms of the query are the selector's entries, one each, in
      strictly ascending key order. */
  lemma BuildSelectorTerms(selector: Selector)
    requires selector != map[]
    requires PlainLabels(selector)
    ensures var terms := Split(BuildSelector(selector), ',');
      |terms| == |selector| &&
      (forall i :: 0 <= i < |terms| ==>
         ParseTerm(terms[i]).Some? && ParseTerm(terms[i]).value.0 in selector
         && ParseTerm(terms[i]).value.1 == selector[ParseTerm(terms[i]).value.0]) &&
      (forall i, j :: 0 <= i < j < |terms| ==>
         ParseTerm(terms[i]).Some? && ParseTerm(terms[j]).Some?
         && Below(ParseTerm(terms[i]).value.0, ParseTerm(terms[j]).value.0))
  {
    var keys := SortedKeys(selector.Keys);
    var terms := Terms(selector, keys);
    SplitBuiltSelector(selector);
    forall i | 0 <= i < |terms|
      ensures ParseTerm(terms[i]) == Some((keys[i], selector[keys[i]]))
    {
      ParseTermOfTerm(keys[i], selector[keys[i]]);
    }
  }

  /** `build_selector` of the empty selector is the empty query, and a
      one-entry selector is its single term. */
  lemma BuildSelectorSmall(key: string, value: string)
    ensures BuildSelector(map[]) == ""
    ensures BuildSelector(map[key := value]) == key + "=" + value
  {
  }

  /** Terms come out in ascending key order whatever order the selector was
      written in. */
  lemma BuildSelectorOrderExample()
    ensures BuildSelector(map["tier" := "fe", "app" := "web"]) == "app=web,tier=fe"
  {
  }
}
