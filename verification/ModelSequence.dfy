/** Numbers given to the devices of one model, and the row that remembers the last one given. */
module ModelSequence {
  import opened Common

  type Pg = string

  datatype Device = Device(model: string, modelSeq: Option<nat>, revision: nat)

  datatype SequenceError = ModelRequired | FloorRequired | NumberTaken

  predicate White(c: char) {
    var n := c as int;
    9 <= n <= 13 || n == 32 || n == 0xA0 || n == 0x1680 || 0x2000 <= n <= 0x200A || n == 0x2028 || n == 0x2029 || n == 0x202F || n == 0x205F || n == 0x3000 || n == 0xFEFF
  }

  function Trim(s: string): string {
    if s == "" then ""
    else if White(s[0]) then Trim(s[1..])
    else if White(s[|s| - 1]) then Trim(s[..|s| - 1])
    else s
  }

  /** Numbers found under exactly this spelling of the model. */
  function NumbersOf(devices: map<Pg, Device>, model: string): set<nat> {
    set pg | pg in devices && devices[pg].model == model && devices[pg].modelSeq.Some? :: devices[pg].modelSeq.value
  }

  ghost function Highest(numbers: set<nat>): (r: nat)
    ensures r == 0 || r in numbers
    ensures forall n :: n in numbers ==> n <= r
  {
    if numbers == {} then 0
    else
      var n :| n in numbers;
      var rest := numbers - {n};
      assert forall m :: m in numbers ==> m == n || m in rest;
      Max(n, Highest(rest))
  }

  /** The last number the row and the devices of this exact spelling know of. */
  ghost function Head(devices: map<Pg, Device>, lastSeq: map<string, nat>, model: string): nat {
    var exact := Highest(NumbersOf(devices, model));
    if model in lastSeq then Max(lastSeq[model], exact) else exact
  }

  ghost function Allocate(devices: map<Pg, Device>, lastSeq: map<string, nat>, model: string): Result<(nat, map<string, nat>), SequenceError> {
    var key := Trim(model);
    if key == "" then Err(ModelRequired)
    else
      var next := Head(devices, lastSeq, key) + 1;
      Ok((next, lastSeq[key := next]))
  }

  function RaiseFloor(lastSeq: map<string, nat>, model: string, floor: Option<nat>): Result<map<string, nat>, SequenceError> {
    var key := Trim(model);
    if floor.None? then Ok(lastSeq)
    else if key == "" || floor.value == 0 then Err(FloorRequired)
    else Ok(lastSeq[key := if key in lastSeq then Max(lastSeq[key], floor.value) else floor.value])
  }

  /** The unique index on model and number. */
  predicate Taken(devices: map<Pg, Device>, pg: Pg, model: string, number: nat) {
    exists p :: p in devices && p != pg && devices[p].model == model && devices[p].modelSeq == Some(number)
  }

  /** A device keeps its number; one without gets the next of its model. */
  ghost function Assign(devices: map<Pg, Device>, lastSeq: map<string, nat>, pg: Pg): Result<(nat, map<Pg, Device>, map<string, nat>), SequenceError>
    requires pg in devices
  {
    var device := devices[pg];
    if device.modelSeq.Some? then Ok((device.modelSeq.value, devices, lastSeq))
    else
      var drawn := Allocate(devices, lastSeq, device.model);
      if drawn.Err? then Err(drawn.error)
      else if Taken(devices, pg, device.model, drawn.value.0) then Err(NumberTaken)
      else
        var numbered := device.(modelSeq := Some(drawn.value.0), revision := device.revision + 1);
        Ok((drawn.value.0, devices[pg := numbered], drawn.value.1))
  }

  // ---- numbers of one model ----

  predicate InClass(d: Device, key: string) {
    Trim(d.model) == key && d.modelSeq.Some?
  }

  /** Every number stored under a spelling with outer blanks is known to the row of the model. */
  ghost predicate Covered(devices: map<Pg, Device>, lastSeq: map<string, nat>) {
    forall pg :: pg in devices ==> KnownNumber(devices[pg], lastSeq)
  }

  predicate KnownNumber(d: Device, lastSeq: map<string, nat>) {
    var key := Trim(d.model);
    d.modelSeq.None? || d.model == key || (key in lastSeq && d.modelSeq.value <= lastSeq[key])
  }

  lemma NumberIsListed(devices: map<Pg, Device>, pg: Pg)
    requires pg in devices && devices[pg].modelSeq.Some?
    ensures devices[pg].modelSeq.value <= Highest(NumbersOf(devices, devices[pg].model))
  {
    assert devices[pg].modelSeq.value in NumbersOf(devices, devices[pg].model);
  }

  /**
   A new number is higher than every number of the model exactly when the numbers stored under
   spellings with outer blanks do not run ahead of what the row and the plain spelling know.
   */
  lemma NewNumberIsHighestIff(devices: map<Pg, Device>, lastSeq: map<string, nat>, model: string)
    requires Allocate(devices, lastSeq, model).Ok?
    ensures var key := Trim(model);
            (forall pg :: pg in devices && InClass(devices[pg], key) ==> devices[pg].modelSeq.value < Allocate(devices, lastSeq, model).value.0)
            <==> (forall pg :: pg in devices && InClass(devices[pg], key) && devices[pg].model != key ==> devices[pg].modelSeq.value <= Head(devices, lastSeq, key))
  {
    forall pg | pg in devices && InClass(devices[pg], Trim(model)) && devices[pg].model == Trim(model)
      ensures devices[pg].modelSeq.value <= Head(devices, lastSeq, Trim(model))
    {
      NumberIsListed(devices, pg);
    }
  }

  /** Without that, two devices of one model can get the same number. Only a row written from outside the code is spelled like this. */
  lemma BlanksCanRepeatANumber()
    ensures var devices: map<Pg, Device> := map["PG1" := Device(" S24", Some(1), 0), "PG2" := Device("S24", None, 0)];
            && Trim(" S24") == "S24"
            && Assign(devices, map[], "PG2").Ok? && Assign(devices, map[], "PG2").value.0 == 1
  {
    var devices: map<Pg, Device> := map["PG1" := Device(" S24", Some(1), 0), "PG2" := Device("S24", None, 0)];
    assert " S24"[1..] == "S24";
    assert NumbersOf(devices, "S24") == {};
  }

  lemma CoveredNumberIsHighest(devices: map<Pg, Device>, lastSeq: map<string, nat>, pg: Pg)
    requires pg in devices && devices[pg].modelSeq.None? && Covered(devices, lastSeq) && Assign(devices, lastSeq, pg).Ok?
    ensures forall p :: p in devices && InClass(devices[p], Trim(devices[pg].model)) ==> devices[p].modelSeq.value < Assign(devices, lastSeq, pg).value.0
  {
    var key := Trim(devices[pg].model);
    forall p | p in devices && InClass(devices[p], key) && devices[p].model != key
      ensures devices[p].modelSeq.value <= Head(devices, lastSeq, key)
    {
      assert KnownNumber(devices[p], lastSeq);
    }
    NewNumberIsHighestIff(devices, lastSeq, devices[pg].model);
  }

  /** Rows of the sequence table never go down. */
  ghost predicate NotLower(before: map<string, nat>, after: map<string, nat>) {
    forall key :: key in before ==> key in after && before[key] <= after[key]
  }

  lemma AssignKeepsCovered(devices: map<Pg, Device>, lastSeq: map<string, nat>, pg: Pg)
    requires pg in devices && Covered(devices, lastSeq) && Assign(devices, lastSeq, pg).Ok?
    ensures var next := Assign(devices, lastSeq, pg).value; Covered(next.1, next.2) && NotLower(lastSeq, next.2)
  {
    var next := Assign(devices, lastSeq, pg).value;
    forall p | p in next.1
      ensures KnownNumber(next.1[p], next.2)
    {
      assert KnownNumber(devices[p], lastSeq);
    }
  }

  /** A number entered by hand together with its floor is covered too, under whatever spelling. */
  lemma HandNumberKeepsCovered(devices: map<Pg, Device>, lastSeq: map<string, nat>, pg: Pg, d: Device)
    requires Covered(devices, lastSeq) && RaiseFloor(lastSeq, d.model, d.modelSeq).Ok?
    ensures var next := RaiseFloor(lastSeq, d.model, d.modelSeq).value; Covered(devices[pg := d], next) && NotLower(lastSeq, next)
  {
    var next := RaiseFloor(lastSeq, d.model, d.modelSeq).value;
    var after := devices[pg := d];
    forall p | p in after
      ensures KnownNumber(after[p], next)
    {
      assert p != pg ==> KnownNumber(devices[p], lastSeq);
    }
  }

  /** A floor is refused for a model without a name and for zero; otherwise the row of the model says it, or what it said if that was more, and no other row changes. */
  lemma FloorIsRaised(lastSeq: map<string, nat>, model: string, floor: nat)
    ensures RaiseFloor(lastSeq, model, None) == Ok(lastSeq)
    ensures RaiseFloor(lastSeq, model, Some(floor)).Ok? <==> Trim(model) != "" && floor >= 1
    ensures var tx, key := RaiseFloor(lastSeq, model, Some(floor)), Trim(model);
            tx.Ok? ==>
              && key in tx.value && tx.value[key] >= floor && (tx.value[key] == floor || (key in lastSeq && tx.value[key] == lastSeq[key]))
              && (key in lastSeq ==> tx.value[key] >= lastSeq[key])
              && tx.value == lastSeq[key := tx.value[key]]
  {
  }

  // ---- models as the code writes them ----

  lemma {:induction false} TrimEnds(s: string)
    ensures Trim(s) == "" || (!White(Trim(s)[0]) && !White(Trim(s)[|Trim(s)| - 1]))
    decreases |s|
  {
    if s != "" {
      if White(s[0]) {
        TrimEnds(s[1..]);
      } else if White(s[|s| - 1]) {
        TrimEnds(s[..|s| - 1]);
      }
    }
  }

  lemma TrimTwice(s: string)
    ensures Trim(Trim(s)) == Trim(s)
  {
    TrimEnds(s);
  }

  /** A model that is named and has no outer blanks. */
  predicate PlainModel(d: Device) {
    d.model != "" && Trim(d.model) == d.model
  }

  predicate Plain(devices: map<Pg, Device>) {
    forall pg :: pg in devices ==> PlainModel(devices[pg])
  }

  lemma PlainIsCovered(devices: map<Pg, Device>, lastSeq: map<string, nat>)
    requires Plain(devices)
    ensures Covered(devices, lastSeq)
  {
    forall pg | pg in devices
      ensures KnownNumber(devices[pg], lastSeq)
    {
      assert PlainModel(devices[pg]);
    }
  }

  /** A device with a plain model always gets its number, and the unique index never refuses it. */
  lemma PlainIsNumbered(devices: map<Pg, Device>, lastSeq: map<string, nat>, pg: Pg)
    requires pg in devices && PlainModel(devices[pg])
    ensures Assign(devices, lastSeq, pg).Ok?
  {
    var model := devices[pg].model;
    if devices[pg].modelSeq.None? {
      var next := Allocate(devices, lastSeq, model).value.0;
      forall p | p in devices && devices[p].model == model
        ensures devices[p].modelSeq != Some(next)
      {
        if devices[p].modelSeq.Some? {
          NumberIsListed(devices, p);
        }
      }
    }
  }

  /** The number is above what the row of the model said, and the row says it then. */
  lemma AssignRaisesRow(devices: map<Pg, Device>, lastSeq: map<string, nat>, pg: Pg)
    requires pg in devices && devices[pg].modelSeq.None? && Assign(devices, lastSeq, pg).Ok?
    ensures var (number, _, rows) := Assign(devices, lastSeq, pg).value; var key := Trim(devices[pg].model);
            && key in rows && rows[key] == number && (key in lastSeq ==> lastSeq[key] < number)
  {
  }
}
