/** The entity records handed from the scenario to the solver-input builder:
    a producer, a consumer and a battery node, and the marker that carries the
    chosen timestep list. Each record is written once by its constructor and
    never changed, so each is a datatype value; the attributes the builder
    probes by name (`hasattr`/`getattr`) are given by `GetAttr`. */
module NodeTypes {
  import opened Wrappers

  /** A number taken from the technology defaults sheet: a value, or NaN
      for a blank cell. */
  datatype Scalar = Num(r: real) | NaN

  datatype Entity =
    | Producer(node_id: string, technology: string,
               capacity_cost: Scalar, operational_cost: Scalar, operational_lifetime: Scalar,
               availability_profile: seq<real>, installed_capacity: Scalar,
               record_curtailment: Scalar)
    | Consumer(node_id: string, technology: string,
               yearly_demand: Scalar, demand_profile: seq<real>)
    | Battery(node_id: string, technology: string,
              energy_capacity: Scalar, installed_capacity: Scalar)
    | Timesteps(timesteps: seq<int>)

  /** The value of one attribute of an entity. */
  datatype Attribute =
    | ScalarAttr(s: Scalar)
    | ProfileAttr(p: seq<real>)
    | TextAttr(t: string)
    | IndexListAttr(ts: seq<int>)

  /** The flag every producer, consumer and battery sets to 1 in its constructor. */
  const ONE: Attribute := ScalarAttr(Num(1.0))

  /** `getattr(e, name)` where `hasattr(e, name)` holds, `None` otherwise. */
  function GetAttr(e: Entity, name: string): Option<Attribute> {
    match e
    case Producer(id, tech, cc, oc, ol, ap, ic, rc) =>
      if name == "node_id" then Some(TextAttr(id))
      else if name == "technology" then Some(TextAttr(tech))
      else if name == "capacity_cost" then Some(ScalarAttr(cc))
      else if name == "operational_cost" then Some(ScalarAttr(oc))
      else if name == "operational_lifetime" then Some(ScalarAttr(ol))
      else if name == "availability_profile" then Some(ProfileAttr(ap))
      else if name == "installed_capacity" then Some(ScalarAttr(ic))
      else if name == "record_curtailment" then Some(ScalarAttr(rc))
      else if name == "is_producer" then Some(ONE)
      else None
    case Consumer(id, tech, yd, dp) =>
      if name == "node_id" then Some(TextAttr(id))
      else if name == "technology" then Some(TextAttr(tech))
      else if name == "yearly_demand" then Some(ScalarAttr(yd))
      else if name == "demand_profile" then Some(ProfileAttr(dp))
      else if name == "is_consumer" then Some(ONE)
      else None
    case Battery(id, tech, ec, ic) =>
      if name == "node_id" then Some(TextAttr(id))
      else if name == "technology" then Some(TextAttr(tech))
      else if name == "energy_capacity" then Some(ScalarAttr(ec))
      else if name == "installed_capacity" then Some(ScalarAttr(ic))
      else if name == "is_storage" then Some(ONE)
      else None
    case Timesteps(ts) =>
      if name == "timesteps" then Some(IndexListAttr(ts)) else None
  }

  const ROLE_FLAGS: set<string> := {"is_producer", "is_consumer", "is_storage"}

  /** The role flags an entity carries. */
  function Roles(e: Entity): set<string> {
    set f | f in ROLE_FLAGS && GetAttr(e, f).Some?
  }

  /** A producer keeps every constructor argument under its own name and
      carries `is_producer = 1` and no other role flag. */
  lemma ProducerAttributes(id: string, tech: string, cc: Scalar, oc: Scalar, ol: Scalar,
                           ap: seq<real>, ic: Scalar, rc: Scalar)
    ensures var e := Producer(id, tech, cc, oc, ol, ap, ic, rc);
      && GetAttr(e, "node_id") == Some(TextAttr(id))
      && GetAttr(e, "technology") == Some(TextAttr(tech))
      && GetAttr(e, "capacity_cost") == Some(ScalarAttr(cc))
      && GetAttr(e, "operational_cost") == Some(ScalarAttr(oc))
      && GetAttr(e, "operational_lifetime") == Some(ScalarAttr(ol))
      && GetAttr(e, "availability_profile") == Some(ProfileAttr(ap))
      && GetAttr(e, "installed_capacity") == Some(ScalarAttr(ic))
      && GetAttr(e, "record_curtailment") == Some(ScalarAttr(rc))
      && GetAttr(e, "is_producer") == Some(ONE)
      && Roles(e) == {"is_producer"}
  {
    var e := Producer(id, tech, cc, oc, ol, ap, ic, rc);
    assert GetAttr(e, "is_consumer") == None && GetAttr(e, "is_storage") == None;
  }

  /** A consumer keeps its arguments and carries `is_consumer = 1` only. */
  lemma ConsumerAttributes(id: string, tech: string, yd: Scalar, dp: seq<real>)
    ensures var e := Consumer(id, tech, yd, dp);
      && GetAttr(e, "node_id") == Some(TextAttr(id))
      && GetAttr(e, "technology") == Some(TextAttr(tech))
      && GetAttr(e, "yearly_demand") == Some(ScalarAttr(yd))
      && GetAttr(e, "demand_profile") == Some(ProfileAttr(dp))
      && GetAttr(e, "is_consumer") == Some(ONE)
      && Roles(e) == {"is_consumer"}
  {
    var e := Consumer(id, tech, yd, dp);
    assert GetAttr(e, "is_producer") == None && GetAttr(e, "is_storage") == None;
  }

  /** A battery keeps its capacities and carries `is_storage = 1` only. */
  lemma BatteryAttributes(id: string, tech: string, ec: Scalar, ic: Scalar)
    ensures var e := Battery(id, tech, ec, ic);
      && GetAttr(e, "node_id") == Some(TextAttr(id))
      && GetAttr(e, "technology") == Some(TextAttr(tech))
      && GetAttr(e, "energy_capacity") == Some(ScalarAttr(ec))
      && GetAttr(e, "installed_capacity") == Some(ScalarAttr(ic))
      && GetAttr(e, "is_storage") == Some(ONE)
      && Roles(e) == {"is_storage"}
  {
    var e := Battery(id, tech, ec, ic);
    assert GetAttr(e, "is_producer") == None && GetAttr(e, "is_consumer") == None;
  }

  /** The marker keeps the list it was given and has no role flag. */
  lemma TimestepsAttributes(ts: seq<int>)
    ensures GetAttr(Timesteps(ts), "timesteps") == Some(IndexListAttr(ts))
    ensures Roles(Timesteps(ts)) == {}
  {
  }

  /** Every node entity has exactly one role flag, so no technology entry is
      both a producer and a consumer through one entity. */
  lemma {:induction false} ExactlyOneRole(e: Entity)
    requires !e.Timesteps?
    ensures |Roles(e)| == 1
  {
    match e
    case Producer(id, tech, cc, oc, ol, ap, ic, rc) =>
      ProducerAttributes(id, tech, cc, oc, ol, ap, ic, rc);
    case Consumer(id, tech, yd, dp) =>
      ConsumerAttributes(id, tech, yd, dp);
    case Battery(id, tech, ec, ic) =>
      BatteryAttributes(id, tech, ec, ic);
  }
}
