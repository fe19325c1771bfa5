/** Node-local agent and global budgets. */
module Budget {
  /** An amount of money; Unlimited stands for the largest float, which absorbs any spend. */
  datatype Amount = Unlimited | Finite(usd: real)

  function EffectiveLimit(limit: real): Amount {
    if limit <= 0.0 then Unlimited else Finite(limit)
  }

  function Less(a: Amount, spent: real): Amount {
    match a
    case Unlimited => Unlimited
    case Finite(usd) => Finite(usd - spent)
  }

  predicate AtMost(a: Amount, b: Amount) {
    b.Unlimited? || (a.Finite? && a.usd <= b.usd)
  }

  function MinAmount(a: Amount, b: Amount): Amount {
    if AtMost(a, b) then a else b
  }

  datatype Ledger = Ledger(
    globalLimit: real,
    globalSpent: real,
    defaultAgentLimit: real,
    agentLimits: map<string, real>,
    agentSpent: map<string, real>)

  /** Whose money is counted: the node's as a whole or one agent's. */
  datatype Scope = Global | Agent(id: string)

  predicate InScope(scope: Scope, agent: string) {
    scope == Global || scope == Agent(agent)
  }

  function Limit(l: Ledger, scope: Scope): real {
    match scope
    case Global => l.globalLimit
    case Agent(id) => if id in l.agentLimits then l.agentLimits[id] else l.defaultAgentLimit
  }

  function Spent(l: Ledger, scope: Scope): real {
    match scope
    case Global => l.globalSpent
    case Agent(id) => if id in l.agentSpent then l.agentSpent[id] else 0.0
  }

  function Recorded(l: Ledger, agent: string, cost: real): Ledger {
    if cost < 0.0 then l
    else l.(globalSpent := l.globalSpent + cost,
            agentSpent := l.agentSpent[agent := Spent(l, Agent(agent)) + cost])
  }

  function RemainingFor(l: Ledger, agent: string): (r: Amount)
    ensures forall scope :: InScope(scope, agent) && Limit(l, scope) > 0.0 ==>
              r.Finite? && r.usd <= Limit(l, scope) - Spent(l, scope)
    ensures r.Finite? ==> exists scope :: InScope(scope, agent) && Limit(l, scope) > 0.0
                                          && r.usd == Limit(l, scope) - Spent(l, scope)
  {
    var forNode := Less(EffectiveLimit(l.globalLimit), l.globalSpent);
    var forAgent := Less(EffectiveLimit(Limit(l, Agent(agent))), Spent(l, Agent(agent)));
    assert InScope(Global, agent) && InScope(Agent(agent), agent);
    MinAmount(forNode, forAgent)
  }

  /** The limits stay, and exactly the scopes the agent belongs to are charged, by the cost if it is not negative. */
  lemma RecordedCharges(l: Ledger, agent: string, cost: real, scope: Scope)
    ensures Limit(Recorded(l, agent, cost), scope) == Limit(l, scope)
    ensures Spent(Recorded(l, agent, cost), scope)
            == Spent(l, scope) + if InScope(scope, agent) && cost >= 0.0 then cost else 0.0
  {
  }

  /** A limit set for an agent beats the default, for that agent alone; zero or less means no limit. */
  lemma AgentLimitWins(l: Ledger, agent: string, limit: real, other: string)
    ensures var l' := l.(agentLimits := l.agentLimits[agent := limit]);
            && Limit(l', Agent(agent)) == limit && Limit(l', Global) == l.globalLimit
            && (other != agent ==> Limit(l', Agent(other)) == Limit(l, Agent(other)))
            && (other !in l.agentLimits && other != agent ==> Limit(l', Agent(other)) == l.defaultAgentLimit)
            && (limit > 0.0
                ==> RemainingFor(l', agent).Finite? && RemainingFor(l', agent).usd <= limit - Spent(l', Agent(agent)))
            && (limit <= 0.0 && l.globalLimit <= 0.0 ==> RemainingFor(l', agent) == Unlimited)
  {
  }

  /** What is charged is gone: an agent's remaining amount shrinks by exactly the cost... */
  lemma ChargeIsFelt(l: Ledger, agent: string, cost: real)
    requires cost >= 0.0
    ensures RemainingFor(l, agent).Finite?
            ==> RemainingFor(Recorded(l, agent, cost), agent) == Finite(RemainingFor(l, agent).usd - cost)
    ensures RemainingFor(l, agent).Unlimited? ==> RemainingFor(Recorded(l, agent, cost), agent).Unlimited?
  {
  }

  /** ... and another's by no more. */
  lemma OthersFeelLess(l: Ledger, agent: string, cost: real, other: string)
    requires cost >= 0.0
    ensures RemainingFor(l, other).Finite? ==>
              var after := RemainingFor(Recorded(l, agent, cost), other);
              after.Finite? && RemainingFor(l, other).usd - cost <= after.usd <= RemainingFor(l, other).usd
  {
  }

  datatype Charge = Charge(agent: string, cost: real)

  function Replay(l: Ledger, history: seq<Charge>): Ledger {
    if history == [] then l
    else Recorded(Replay(l, history[..|history| - 1]), history[|history| - 1].agent, history[|history| - 1].cost)
  }

  /** The money a history of charges asks for within a scope. */
  function Total(history: seq<Charge>, scope: Scope): real {
    if history == [] then 0.0
    else
      var last := history[|history| - 1];
      Total(history[..|history| - 1], scope) + if InScope(scope, last.agent) && last.cost >= 0.0 then last.cost else 0.0
  }

  /** Both balances always add up to the recorded history, and no agent's exceeds the node's. */
  lemma {:induction false} ReplayTotals(l: Ledger, history: seq<Charge>, scope: Scope)
    ensures Spent(Replay(l, history), scope) == Spent(l, scope) + Total(history, scope)
    ensures 0.0 <= Total(history, scope) <= Total(history, Global)
  {
    if history == [] {
    } else {
      var last := history[|history| - 1];
      ReplayTotals(l, history[..|history| - 1], scope);
      RecordedCharges(Replay(l, history[..|history| - 1]), last.agent, last.cost, scope);
    }
  }

  class Manager {
    var globalLimit: real
    var globalSpent: real
    var defaultAgentLimit: real
    var agentLimits: map<string, real>
    var agentSpent: map<string, real>

    function View(): Ledger
      reads this
    {
      Ledger(globalLimit, globalSpent, defaultAgentLimit, agentLimits, agentSpent)
    }

    constructor (globalLimit: real, defaultAgentLimit: real)
      ensures View() == Ledger(globalLimit, 0.0, defaultAgentLimit, map[], map[])
    {
      this.globalLimit, this.globalSpent := globalLimit, 0.0;
      this.defaultAgentLimit := defaultAgentLimit;
      this.agentLimits, this.agentSpent := map[], map[];
    }

    method SetAgentLimit(agentID: string, limit: real)
      modifies this`agentLimits
      ensures View() == old(View()).(agentLimits := old(agentLimits)[agentID := limit])
    {
      agentLimits := agentLimits[agentID := limit];
    }

    method Remaining(agentID: string) returns (r: Amount)
      ensures r == RemainingFor(View(), agentID)
    {
      var globalRemaining := Less(EffectiveLimit(globalLimit), globalSpent);
      var agentLimit := defaultAgentLimit;
      if agentID in agentLimits {
        agentLimit := agentLimits[agentID];
      }
      var spent := if agentID in agentSpent then agentSpent[agentID] else 0.0;
      r := MinAmount(globalRemaining, Less(EffectiveLimit(agentLimit), spent));
    }

    method Record(agentID: string, cost: real)
      modifies this`globalSpent, this`agentSpent
      ensures View() == Recorded(old(View()), agentID, cost)
    {
      if cost < 0.0 {
        return;
      }
      globalSpent := globalSpent + cost;
      agentSpent := agentSpent[agentID := (if agentID in agentSpent then agentSpent[agentID] else 0.0) + cost];
    }
  }
}
