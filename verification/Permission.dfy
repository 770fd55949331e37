/** Which intentions a daemon accepts: a register that is filled in, and the checker built from it. */
module Permission {
  const FORWARD_NONE := 0
  const FORWARD_IN := 1
  const FORWARD_OUT := 2

  datatype Rules = Rules(pipeOut: bool, forward: int, host: string, port: int)

  const NoRules := Rules(false, FORWARD_NONE, "", 0)

  // An empty host with port zero allows any address.
  predicate AnyAddress(r: Rules) { r.host == "" && r.port == 0 }

  predicate Matches(r: Rules, host: string, port: int) {
    AnyAddress(r) || (host == r.host && port == r.port)
  }

  // The checker keeps a copy of the rules; it never changes.
  datatype Checker = Checker(rules: Rules) {
    predicate CheckPortForwardIn(destHost: string, destPort: int) {
      rules.forward == FORWARD_IN && Matches(rules, destHost, destPort)
    }

    predicate CheckPortForwardOut(bindHost: string, bindPort: int) {
      rules.forward == FORWARD_OUT && Matches(rules, bindHost, bindPort)
    }

    predicate CheckPipeOut() { rules.pipeOut }
  }

  datatype Rule = AllowPipe | AllowIn(host: string, port: int) | AllowOut(host: string, port: int)

  function Add(r: Rules, rule: Rule): Rules {
    match rule
    case AllowPipe => r.(pipeOut := true)
    case AllowIn(h, p) => r.(forward := FORWARD_IN, host := h, port := p)
    case AllowOut(h, p) => r.(forward := FORWARD_OUT, host := h, port := p)
  }

  function AddAll(r: Rules, rules: seq<Rule>): Rules
    decreases |rules|
  {
    if rules == [] then r else AddAll(Add(r, rules[0]), rules[1..])
  }

  class Register {
    var pipeOutAllow: bool
    var forwardAllow: int
    var forwardHost: string
    var forwardPort: int

    function View(): Rules
      reads this
    {
      Rules(pipeOutAllow, forwardAllow, forwardHost, forwardPort)
    }

    constructor ()
      ensures View() == NoRules
    {
      pipeOutAllow, forwardAllow, forwardHost, forwardPort := false, FORWARD_NONE, "", 0;
    }

    method AllowPortForwardIn(host: string, port: int)
      modifies this
      ensures View() == Add(old(View()), AllowIn(host, port))
    {
      forwardAllow, forwardHost, forwardPort := FORWARD_IN, host, port;
    }

    method AllowPortForwardOut(host: string, port: int)
      modifies this
      ensures View() == Add(old(View()), AllowOut(host, port))
    {
      forwardAllow, forwardHost, forwardPort := FORWARD_OUT, host, port;
    }

    method AllowPipeOut()
      modifies this
      ensures View() == Add(old(View()), AllowPipe)
    {
      pipeOutAllow := true;
    }

    // The checker is a snapshot: what the register is told afterwards does not reach it.
    method BuildChecker() returns (c: Checker)
      ensures c.rules == View()
    {
      c := Checker(Rules(pipeOutAllow, forwardAllow, forwardHost, forwardPort));
    }
  }

  /** Whatever was allowed before, and whatever pipe permission comes later, the last forward rule alone
      decides about forwarding; pipes are allowed when they were ever allowed. */
  lemma {:induction false} LastForwardRuleWins(r: Rules, before: seq<Rule>, rule: Rule, after: seq<Rule>, host: string, port: int)
    requires !rule.AllowPipe? && forall x :: x in after ==> x.AllowPipe?
    ensures var c := Checker(AddAll(r, before + [rule] + after));
            var hit := (rule.host == "" && rule.port == 0) || (host == rule.host && port == rule.port);
            && (c.CheckPortForwardIn(host, port) <==> rule.AllowIn? && hit)
            && (c.CheckPortForwardOut(host, port) <==> rule.AllowOut? && hit)
            && (c.CheckPipeOut() <==> r.pipeOut || AllowPipe in before + after)
    decreases |before| + |after|
  {
    if before != [] {
      assert (before + [rule] + after)[1..] == before[1..] + [rule] + after;
      LastForwardRuleWins(Add(r, before[0]), before[1..], rule, after, host, port);
    } else if after != [] {
      assert (before + [rule] + after)[1..] == after;
      assert before + after == after;
      PipesKeepForwarding(Add(r, rule), after);
    } else {
      assert before + [rule] + after == [rule];
    }
  }

  lemma {:induction false} PipesKeepForwarding(r: Rules, rules: seq<Rule>)
    requires forall x :: x in rules ==> x.AllowPipe?
    ensures AddAll(r, rules) == r.(pipeOut := r.pipeOut || rules != [])
    decreases |rules|
  {
    if rules != [] {
      PipesKeepForwarding(Add(r, rules[0]), rules[1..]);
    }
  }
}
