/**
 What the authorization policy controller is for: the policy of an annotated service lets through what the Athenz domain
 of its namespace grants. pkg/istio/authorizationpolicy/controller.go, `sync`.
 */
module ServicePolicies {
  import opened AthenzData
  import opened AthenzModel
  import opened Configs
  import opened DomainNames
  import opened PolicyCompiler
  import opened PolicyController
  import opened PolicyConvergence
  import opened PolicyMeaning
  import opened PolicyReconciler
  import opened PolicyStores

  predicate AsksForPolicy(svc: Service) {
    "authz.istio.io/enabled" in svc.annotations && svc.annotations["authz.istio.io/enabled"] == "true"
  }

  predicate IsKeptByHand(c: Cfg) {
    "overrideAuthzPolicy" in c.meta.annotations && c.meta.annotations["overrideAuthzPolicy"] == "true"
  }

  /** The policies of enabled services, namespaces or clusters are on the server, others in the directory. */
  function PolicyInForce(st: Stores, comp: ComponentEnabled, namespace: string, name: string): Option<Cfg> {
    var k := Key(Kind.AuthorizationPolicy, namespace, name);
    var m := if comp.cluster || namespace in comp.namespaces || namespace + "/" + name in comp.services
             then st.api.objects else st.dry;
    if k in m then Some(m[k]) else None
  }

  function LabelOrNothing(svc: Service, label_: string): string {
    if label_ in svc.labels then svc.labels[label_] else ""
  }

  /** The policy selects the workloads of the service by its app label, and admits what the domain grants on the paths of
      the service that its svc label names. */
  ghost predicate Fulfils(c: Cfg, w: World, domain: string, svc: Service)
    requires domain in w.domains
  {
    && c.spec.app == LabelOrNothing(svc, "app")
    && forall matcher: Matcher, req ::
         PolicyAdmits(c.spec, matcher, req) <==>
         AthenzGrants(ModelOf(w.domains, w.domains[domain]), Settings(w.jwt, w.now, LabelOrNothing(svc, "svc"), w.svcMatch),
                      matcher, req)
  }

  /** What must be in force for a name: a policy kept by hand as it was, otherwise the policy of the annotated service of
      the name, and none when there is no such service. */
  ghost predicate InForceAsWanted(before: Option<Cfg>, after: Option<Cfg>, w: World, domain: string, name: string)
    requires domain in w.domains
  {
    var key := DomainToNamespace(domain) + "/" + name;
    if before.Some? && IsKeptByHand(before.value) then Plain(after) == Plain(before)
    else if key in w.services && AsksForPolicy(w.services[key]) then
      after.Some? && Fulfils(after.value, w, domain, w.services[key])
    else after == None
  }

  lemma WantedFulfils(w: World, domain: string, name: string)
    requires domain in w.domains
    ensures var key, c := DomainToNamespace(domain) + "/" + name, WantedAt(w, domain, name);
            && (c.Some? <==> key in w.services && AsksForPolicy(w.services[key]))
            && (c.Some? ==> Fulfils(c.value, w, domain, w.services[key]))
  {
    var key := DomainToNamespace(domain) + "/" + name;
    if key in w.services {
      var svc := w.services[key];
      var m := ModelOf(w.domains, w.domains[domain]);
      var s := Settings(w.jwt, w.now, LabelOrNothing(svc, "svc"), w.svcMatch);
      forall matcher: Matcher, req
        ensures PolicyAdmits(CompiledPolicy(m, LabelOrNothing(svc, "app"), s), matcher, req) <==>
                AthenzGrants(m, s, matcher, req)
      {
        PolicyPreservesMeaning(m, LabelOrNothing(svc, "app"), s, matcher, req);
      }
    }
  }

  lemma InForceIsThere(st: Stores, comp: ComponentEnabled, namespace: string, name: string)
    ensures There(st, PolicyKey(namespace, name), comp) == Plain(PolicyInForce(st, comp, namespace, name))
  {
  }

  lemma NextIsWanted(before: Option<Cfg>, after: Option<Cfg>, w: World, domain: string, name: string)
    requires domain in w.domains && Plain(after) == NextAt(Plain(before), WantedAt(w, domain, name))
    ensures InForceAsWanted(before, after, w, domain, name)
  {
    WantedFulfils(w, domain, name);
  }

  lemma NextFulfils(st: Stores, after: Stores, w: World, domain: string, name: string)
    requires domain in w.domains
    requires var k := PolicyKey(DomainToNamespace(domain), name);
             There(after, k, w.comp) == NextAt(There(st, k, w.comp), WantedAt(w, domain, name))
    ensures var ns := DomainToNamespace(domain);
            InForceAsWanted(PolicyInForce(st, w.comp, ns, name), PolicyInForce(after, w.comp, ns, name), w, domain, name)
  {
    var ns := DomainToNamespace(domain);
    InForceIsThere(st, w.comp, ns, name);
    InForceIsThere(after, w.comp, ns, name);
    NextIsWanted(PolicyInForce(st, w.comp, ns, name), PolicyInForce(after, w.comp, ns, name), w, domain, name);
  }

  /** A service-level sync that nothing disturbs leaves the policy in force as wanted. */
  lemma ServiceSyncFulfils(st: Stores, w: World, domain: string, name: string)
    requires domain in w.domains && WellKeyed(w) && Routed(st, w.comp) && CaughtUp(st)
    ensures var ns, after := DomainToNamespace(domain), ServiceSync(st, w, domain, name).stores;
            InForceAsWanted(PolicyInForce(st, w.comp, ns, name), PolicyInForce(after, w.comp, ns, name), w, domain, name)
  {
    ServiceSyncAt(st, w, domain, name);
    NextFulfils(st, ServiceSync(st, w, domain, name).stores, w, domain, name);
  }

  /** So does a domain-level one, for every name that it does not overlook. */
  lemma DomainSyncFulfils(st: Stores, w: World, domain: string, current: seq<Cfg>, desired: seq<Cfg>, name: string)
    requires domain in w.domains && WellKeyed(w) && Routed(st, w.comp) && CaughtUp(st)
    requires ShowsNamespace(current, st, DomainToNamespace(domain), w.comp) && DesiredInNamespace(desired, w, domain)
    requires !Overlooked(st, w, domain, name)
    ensures var ns, after := DomainToNamespace(domain), DomainSync(st, w, current, desired).stores;
            InForceAsWanted(PolicyInForce(st, w.comp, ns, name), PolicyInForce(after, w.comp, ns, name), w, domain, name)
  {
    DomainSyncAt(st, w, domain, current, desired);
    DomainNextIff(st, w, domain, name);
    assert There(DomainSync(st, w, current, desired).stores, PolicyKey(DomainToNamespace(domain), name), w.comp) ==
           DomainNextAt(st, w, domain, name);
    NextFulfils(st, DomainSync(st, w, current, desired).stores, w, domain, name);
  }

  lemma ConvergedIsWanted(s: State, domain: string, name: string, c: Option<Cfg>)
    requires domain in s.world.domains && ConvergedAt(s, domain, name)
    requires There(s.stores, KeyFor(domain, name), s.world.comp) == Plain(c)
    ensures InForceAsWanted(c, c, s.world, domain, name)
  {
    WantedFulfils(s.world, domain, name);
  }

  /** And whenever the controller has come to rest about a policy that domain-level syncs do not miss, what is in force is as
      wanted, whatever happened before. */
  lemma RestFulfils(s: State, domain: string, name: string)
    requires ReachableAlone(s, domain) && !s.crashed && PolicyConvergence.Tracked(s, domain, name)
    requires PolicyConvergence.Quiescent(s, domain, name) && !Missed(s, domain, name)
    ensures var c := PolicyInForce(s.stores, s.world.comp, DomainToNamespace(domain), name);
            InForceAsWanted(c, c, s.world, domain, name)
  {
    QuiescenceDecidesConvergence(s, domain, name);
    InForceIsThere(s.stores, s.world.comp, DomainToNamespace(domain), name);
    ConvergedIsWanted(s, domain, name, PolicyInForce(s.stores, s.world.comp, DomainToNamespace(domain), name));
  }
}
