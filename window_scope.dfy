/** Which values of an assignment a window's constraints can see: hours 1..H of every
    variable, and at hour 0 only the pinned on/mwh (the other hour-0 variables are
    bounded by their domains alone). Everything after hour H is invisible, so the
    minimum up/down lookahead is truncated at the horizon, never wrapped. */
module WindowScope {
  import opened Sums
  import opened UnitCommitment

  /** a and b give every variable the same value in every free hour 1..H. */
  ghost predicate AgreeOnFreeHours(p: Window, a: Assignment, b: Assignment)
  {
    forall e, i: Hour | 1 <= i <= p.horizonHours ::
      && a.mwh(e, i) == b.mwh(e, i)
      && a.on(e, i) == b.on(e, i)
      && a.switch(e, i) == b.switch(e, i)
      && a.srsv(e, i) == b.srsv(e, i)
      && a.nrsv(e, i) == b.nrsv(e, i)
      && a.hydro(e, i) == b.hydro(e, i)
      && a.solar(e, i) == b.solar(e, i)
      && a.vltAngle(e, i) == b.vltAngle(e, i)
  }

  /** a and b carry the same commitment and output at hour 0. */
  ghost predicate SameInitialHour(p: Window, a: Assignment, b: Assignment)
  {
    forall j | j in Generators(p) :: a.on(j, 0) == b.on(j, 0) && a.mwh(j, 0) == b.mwh(j, 0)
  }

  /** The remaining hour-0 variables of b lie in their declared domains. */
  ghost predicate HourZeroInDomain(p: Window, b: Assignment)
  {
    && (forall j | j in Generators(p) ::
          b.srsv(j, 0) >= 0.0 && b.nrsv(j, 0) >= 0.0 && Binary(b.switch(j, 0)))
    && (forall z | z in p.hNodes :: b.hydro(z, 0) >= 0.0)
    && (forall z | z in p.sNodes :: b.solar(z, 0) >= 0.0)
  }

  lemma FlowAgrees(p: Window, a: Assignment, b: Assignment, z: string, i: Hour)
    requires AgreeOnFreeHours(p, a, b) && 1 <= i <= p.horizonHours
    ensures Flow(p, a, z, i) == Flow(p, b, z, i)
  {
    SumExt(p.sinks, k => p.linesus(z, k) * (a.vltAngle(z, i) - a.vltAngle(k, i)),
                    k => p.linesus(z, k) * (b.vltAngle(z, i) - b.vltAngle(k, i)));
  }

  lemma ReserveTotalsAgree(p: Window, a: Assignment, b: Assignment, i: Hour)
    requires AgreeOnFreeHours(p, a, b) && 1 <= i <= p.horizonHours
    ensures SpinningTotal(p, a, i) == SpinningTotal(p, b, i)
    ensures NonSpinningTotal(p, a, i) == NonSpinningTotal(p, b, i)
  {
    SumExt(ResGenerators(p), SpinningOffer(a, i), SpinningOffer(b, i));
    SumExt(ResGenerators(p), NonSpinningOffer(a, i), NonSpinningOffer(b, i));
  }

  lemma DomainsCarryOver(p: Window, a: Assignment, b: Assignment)
    requires Domains(p, a)
    requires AgreeOnFreeHours(p, a, b) && SameInitialHour(p, a, b) && HourZeroInDomain(p, b)
    ensures Domains(p, b)
  {
    forall j, i: Hour | j in Generators(p) && i <= p.horizonHours
      ensures b.mwh(j, i) >= 0.0 && b.srsv(j, i) >= 0.0 && b.nrsv(j, i) >= 0.0
      ensures Binary(b.on(j, i)) && Binary(b.switch(j, i))
    {
      assert a.mwh(j, i) >= 0.0 && Binary(a.on(j, i));
      if i >= 1 {
        assert a.srsv(j, i) == b.srsv(j, i) && a.nrsv(j, i) == b.nrsv(j, i);
        assert a.mwh(j, i) == b.mwh(j, i) && a.on(j, i) == b.on(j, i) && a.switch(j, i) == b.switch(j, i);
      }
    }
    forall z, i: Hour | z in p.hNodes && i <= p.horizonHours ensures b.hydro(z, i) >= 0.0 {
      assert a.hydro(z, i) >= 0.0;
    }
    forall z, i: Hour | z in p.sNodes && i <= p.horizonHours ensures b.solar(z, i) >= 0.0 {
      assert a.solar(z, i) >= 0.0;
    }
  }

  lemma CommitmentRulesCarryOver(p: Window, a: Assignment, b: Assignment)
    requires InitialConditions(p, a) && StartLogic(p, a) && UpDownTimes(p, a)
    requires AgreeOnFreeHours(p, a, b) && SameInitialHour(p, a, b)
    ensures InitialConditions(p, b) && StartLogic(p, b) && UpDownTimes(p, b)
  {
    forall j, i: Hour | j in Generators(p) && i <= p.horizonHours
      ensures MwhConInitial(p, b, j, i) && OnConInitial(p, b, j, i)
    {
      assert MwhConInitial(p, a, j, i) && OnConInitial(p, a, j, i);
    }
    forall j, i: Hour | j in Generators(p) && 1 <= i <= p.horizonHours
      ensures SwitchCon2(p, b, j, i) && SwitchCon3(p, b, j, i) && SwitchCon4(p, b, j, i)
    {
      assert SwitchCon2(p, a, j, i) && SwitchCon3(p, a, j, i) && SwitchCon4(p, a, j, i);
    }
    forall j, i: Hour, k: Hour | j in Generators(p) && i <= p.horizonHours && k <= p.horizonHours
      ensures MinUp(p, b, j, i, k) && MinDown(p, b, j, i, k)
    {
      assert MinUp(p, a, j, i, k) && MinDown(p, a, j, i, k);
    }
  }

  lemma OutputRulesCarryOver(p: Window, a: Assignment, b: Assignment)
    requires Ramping(p, a) && Capacity(p, a) && Renewables(p, a)
    requires AgreeOnFreeHours(p, a, b)
    ensures Ramping(p, b) && Capacity(p, b) && Renewables(p, b)
  {
    forall j, i: Hour | j in Generators(p) && 1 <= i <= p.horizonHours
      ensures Ramp1(p, b, j, i) && Ramp2(p, b, j, i)
    {
      assert Ramp1(p, a, j, i) && Ramp2(p, a, j, i);
    }
    forall j, i: Hour | j in Generators(p) && 1 <= i <= p.horizonHours
      ensures MaxC(p, b, j, i) && MinC(p, b, j, i)
    {
      assert MaxC(p, a, j, i) && MinC(p, a, j, i);
    }
    forall z, i: Hour | z in p.hNodes && 1 <= i <= p.horizonHours ensures HydroC(p, b, z, i) {
      assert HydroC(p, a, z, i);
    }
    forall z, i: Hour | z in p.sNodes && 1 <= i <= p.horizonHours ensures SolarC(p, b, z, i) {
      assert SolarC(p, a, z, i);
    }
  }

  lemma LoadNodesCarryOver(p: Window, a: Assignment, b: Assignment)
    requires AgreeOnFreeHours(p, a, b)
    requires forall z, i: Hour | z in p.tdNodes && 1 <= i <= p.horizonHours :: TDnodesBalance(p, a, z, i)
    requires forall z, i: Hour | z in p.tnNodes && 1 <= i <= p.horizonHours :: TNnodesBalance(p, a, z, i)
    ensures forall z, i: Hour | z in p.tdNodes && 1 <= i <= p.horizonHours :: TDnodesBalance(p, b, z, i)
    ensures forall z, i: Hour | z in p.tnNodes && 1 <= i <= p.horizonHours :: TNnodesBalance(p, b, z, i)
  {
    forall z, i: Hour | z in p.tdNodes && 1 <= i <= p.horizonHours ensures TDnodesBalance(p, b, z, i) {
      FlowAgrees(p, a, b, z, i);
      assert TDnodesBalance(p, a, z, i);
    }
    forall z, i: Hour | z in p.tnNodes && 1 <= i <= p.horizonHours ensures TNnodesBalance(p, b, z, i) {
      FlowAgrees(p, a, b, z, i);
      assert TNnodesBalance(p, a, z, i);
    }
  }

  lemma RenewableNodesCarryOver(p: Window, a: Assignment, b: Assignment)
    requires AgreeOnFreeHours(p, a, b)
    requires forall z, i: Hour | z in p.hNodes && 1 <= i <= p.horizonHours :: HPnodesBalance(p, a, z, i)
    requires forall z, i: Hour | z in p.sNodes && 1 <= i <= p.horizonHours :: SolarnodesBalance(p, a, z, i)
    ensures forall z, i: Hour | z in p.hNodes && 1 <= i <= p.horizonHours :: HPnodesBalance(p, b, z, i)
    ensures forall z, i: Hour | z in p.sNodes && 1 <= i <= p.horizonHours :: SolarnodesBalance(p, b, z, i)
  {
    forall z, i: Hour | z in p.hNodes && 1 <= i <= p.horizonHours ensures HPnodesBalance(p, b, z, i) {
      FlowAgrees(p, a, b, z, i);
      assert HPnodesBalance(p, a, z, i) && a.hydro(z, i) == b.hydro(z, i);
    }
    forall z, i: Hour | z in p.sNodes && 1 <= i <= p.horizonHours ensures SolarnodesBalance(p, b, z, i) {
      FlowAgrees(p, a, b, z, i);
      assert SolarnodesBalance(p, a, z, i) && a.solar(z, i) == b.solar(z, i);
    }
  }

  lemma ThermoAgrees(p: Window, a: Assignment, b: Assignment, n: nat, i: Hour)
    requires AgreeOnFreeHours(p, a, b) && n < |p.gd| && 1 <= i <= p.horizonHours
    ensures Thermo(p, a, n, i) == Thermo(p, b, n, i)
  {
    SumExt(p.gd[n].gens, MwhAt(a, i), MwhAt(b, i));
  }

  lemma GenerationNodesCarryOver(p: Window, a: Assignment, b: Assignment)
    requires AgreeOnFreeHours(p, a, b)
    requires forall n: nat, i: Hour | n < |p.gd| && 1 <= i <= p.horizonHours :: GDBalance(p, a, n, i)
    ensures forall n: nat, i: Hour | n < |p.gd| && 1 <= i <= p.horizonHours :: GDBalance(p, b, n, i)
  {
    forall n: nat, i: Hour | n < |p.gd| && 1 <= i <= p.horizonHours ensures GDBalance(p, b, n, i) {
      ThermoAgrees(p, a, b, n, i);
      FlowAgrees(p, a, b, p.gd[n].node, i);
      assert GDBalance(p, a, n, i);
    }
  }

  lemma NetworkAndReservesCarryOver(p: Window, a: Assignment, b: Assignment)
    requires Network(p, a) && ReserveRules(p, a) && AgreeOnFreeHours(p, a, b)
    ensures Network(p, b) && ReserveRules(p, b)
  {
    forall i: Hour | 1 <= i <= p.horizonHours ensures RefNode(p, b, i) {
      assert RefNode(p, a, i);
    }
    forall s, k, i: Hour | s in p.sources && k in p.sinks && 1 <= i <= p.horizonHours
      ensures MaxLine(p, b, s, k, i) && MinLine(p, b, s, k, i)
    {
      assert MaxLine(p, a, s, k, i) && MinLine(p, a, s, k, i);
    }
    forall i: Hour | 1 <= i <= p.horizonHours ensures SysReserve(p, b, i) && SpinningReq(p, b, i) {
      ReserveTotalsAgree(p, a, b, i);
      assert SysReserve(p, a, i) && SpinningReq(p, a, i);
    }
    forall j, i: Hour | j in Generators(p) && 1 <= i <= p.horizonHours
      ensures SpinningReq2(p, b, j, i) && NonSpinningReq(p, b, j, i) && ZeroSum(p, b, j, i)
    {
      UnitReservesCarryOver(p, a, b, j, i);
    }
  }

  lemma UnitReservesCarryOver(p: Window, a: Assignment, b: Assignment, j: string, i: Hour)
    requires AgreeOnFreeHours(p, a, b) && 1 <= i <= p.horizonHours
    requires SpinningReq2(p, a, j, i) && NonSpinningReq(p, a, j, i) && ZeroSum(p, a, j, i)
    ensures SpinningReq2(p, b, j, i) && NonSpinningReq(p, b, j, i) && ZeroSum(p, b, j, i)
  {
    assert a.on(j, i) == b.on(j, i) && a.mwh(j, i) == b.mwh(j, i);
    assert a.srsv(j, i) == b.srsv(j, i) && a.nrsv(j, i) == b.nrsv(j, i);
  }

  /** Feasibility of a window depends only on hours 1..H and on the pinned hour-0
      commitment and output: any b that agrees with a feasible a there, and whose other
      hour-0 values lie in their domains, is feasible too. */
  lemma FeasibleDependsOnlyOnWindow(p: Window, a: Assignment, b: Assignment)
    requires Feasible(p, a)
    requires AgreeOnFreeHours(p, a, b) && SameInitialHour(p, a, b) && HourZeroInDomain(p, b)
    ensures Feasible(p, b)
  {
    DomainsCarryOver(p, a, b);
    CommitmentRulesCarryOver(p, a, b);
    OutputRulesCarryOver(p, a, b);
    LoadNodesCarryOver(p, a, b);
    RenewableNodesCarryOver(p, a, b);
    GenerationNodesCarryOver(p, a, b);
    NetworkAndReservesCarryOver(p, a, b);
  }

  /** a up to hour H, c after it. */
  function AfterHorizon(p: Window, a: Assignment, c: Assignment): Assignment
  {
    var H := p.horizonHours;
    Assignment(
      (e: string, i: Hour) => if i <= H then a.mwh(e, i) else c.mwh(e, i),
      (e: string, i: Hour) => if i <= H then a.on(e, i) else c.on(e, i),
      (e: string, i: Hour) => if i <= H then a.switch(e, i) else c.switch(e, i),
      (e: string, i: Hour) => if i <= H then a.srsv(e, i) else c.srsv(e, i),
      (e: string, i: Hour) => if i <= H then a.nrsv(e, i) else c.nrsv(e, i),
      (e: string, i: Hour) => if i <= H then a.hydro(e, i) else c.hydro(e, i),
      (e: string, i: Hour) => if i <= H then a.solar(e, i) else c.solar(e, i),
      (e: string, i: Hour) => if i <= H then a.vltAngle(e, i) else c.vltAngle(e, i))
  }

  /** Truncated lookahead: a feasible schedule stays feasible whatever any variable does
      after hour H, for instance a unit started in the last hour switching off at H+1
      even though its minimum up time would reach past the horizon. */
  lemma LookaheadTruncated(p: Window, a: Assignment, c: Assignment)
    requires Feasible(p, a)
    ensures Feasible(p, AfterHorizon(p, a, c))
  {
    var b := AfterHorizon(p, a, c);
    assert HourZeroInDomain(p, b) by {
      forall j | j in Generators(p) ensures b.srsv(j, 0) >= 0.0 && b.nrsv(j, 0) >= 0.0 && Binary(b.switch(j, 0)) {
        assert a.srsv(j, 0) >= 0.0 && a.nrsv(j, 0) >= 0.0 && Binary(a.switch(j, 0));
      }
      forall z | z in p.hNodes ensures b.hydro(z, 0) >= 0.0 {
        assert a.hydro(z, 0) >= 0.0;
      }
      forall z | z in p.sNodes ensures b.solar(z, 0) >= 0.0 {
        assert a.solar(z, 0) >= 0.0;
      }
    }
    FeasibleDependsOnlyOnWindow(p, a, b);
  }

  /** a with the voltage angles of hour 0 replaced by theta. */
  function WithHourZeroAngles(a: Assignment, theta: string -> real): Assignment
  {
    a.(vltAngle := (z: string, i: Hour) => if i == 0 then theta(z) else a.vltAngle(z, i))
  }

  /** The reference-node rule covers hours 1..H only: the angles of hour 0, the reference
      node's included, can take any value in a feasible assignment. */
  lemma HourZeroAnglesFree(p: Window, a: Assignment, theta: string -> real)
    requires Feasible(p, a)
    ensures Feasible(p, WithHourZeroAngles(a, theta))
    ensures WithHourZeroAngles(a, theta).vltAngle(p.refNode, 0) == theta(p.refNode)
  {
    var b := WithHourZeroAngles(a, theta);
    assert HourZeroInDomain(p, b) by {
      forall j | j in Generators(p) ensures b.srsv(j, 0) >= 0.0 && b.nrsv(j, 0) >= 0.0 && Binary(b.switch(j, 0)) {
        assert a.srsv(j, 0) >= 0.0 && a.nrsv(j, 0) >= 0.0 && Binary(a.switch(j, 0));
      }
      forall z | z in p.hNodes ensures b.hydro(z, 0) >= 0.0 {
        assert a.hydro(z, 0) >= 0.0;
      }
      forall z | z in p.sNodes ensures b.solar(z, 0) >= 0.0 {
        assert a.solar(z, 0) >= 0.0;
      }
    }
    FeasibleDependsOnlyOnWindow(p, a, b);
  }
}
