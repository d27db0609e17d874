/** The registry of bot commands: names mapped to command objects, where a
    name can be registered only once. The command type is a parameter. */
module CommandRegistry {
  import opened Wrappers

  type Registry<C> = map<string, C>

  function AlreadyExists(name: string): Exception {
    ValueError("Command with name [" + name + "] already exists")
  }

  /** `register_command`: a name already present raises `ValueError` and
      keeps its command; a new name is added and nothing else changes. */
  function RegisterCommand<C>(reg: Registry<C>, name: string, command: C): (r: Result<Registry<C>, Exception>)
    ensures name in reg ==> r == Err(AlreadyExists(name))
    ensures name !in reg ==>
      && r.Ok?
      && IsRegisteredCommand(r.value, name)
      && r.value[name] == command
      && r.value.Keys == reg.Keys + {name}
      && (forall n :: n in reg ==> r.value[n] == reg[n])
  {
    if name in reg then Err(AlreadyExists(name)) else Ok(reg[name := command])
  }

  /** `is_registered_command`: membership among the registered names. */
  predicate IsRegisteredCommand<C>(reg: Registry<C>, name: string) {
    name in reg.Keys
  }

  /** A name is registered exactly when registering it again is refused,
      whatever the command. */
  lemma RegisteredIffTaken<C>(reg: Registry<C>, name: string, command: C)
    ensures IsRegisteredCommand(reg, name) <==> RegisterCommand(reg, name, command).Err?
    ensures !IsRegisteredCommand(reg, name) ==> IsRegisteredCommand(RegisterCommand(reg, name, command).value, name)
  {
  }

  /** `get_command` as written: the command registered under `name`; an
      unregistered name raises `ValueError` with the registration error's
      message, which says the command "already exists". */
  function GetCommandAsWritten<C>(reg: Registry<C>, name: string): (r: Result<C, Exception>)
    ensures !IsRegisteredCommand(reg, name) ==> r == Err(AlreadyExists(name))
    ensures IsRegisteredCommand(reg, name) ==> r == Ok(reg[name])
  {
    if !IsRegisteredCommand(reg, name) then Err(AlreadyExists(name)) else Ok(reg[name])
  }

  /** Looking up a name nobody registered reports that it already exists. */
  lemma MissingCommandReportedAsExisting<C>(reg: Registry<C>, name: string)
    requires name !in reg
    ensures GetCommandAsWritten(reg, name)
      == Err(ValueError("Command with name [" + name + "] already exists"))
  {
  }

  function NotRegistered(name: string): Exception {
    ValueError("Command with name [" + name + "] is not registered")
  }

  /** `get_command` with the message it evidently means: the same lookup,
      but a missing name raises an error of its own. */
  function GetCommand<C>(reg: Registry<C>, name: string): (r: Result<C, Exception>)
    ensures !IsRegisteredCommand(reg, name) ==> r == Err(NotRegistered(name))
    ensures IsRegisteredCommand(reg, name) ==> r == Ok(reg[name])
  {
    if !IsRegisteredCommand(reg, name) then Err(NotRegistered(name)) else Ok(reg[name])
  }

  /** The corrected lookup agrees with the written one on every registered
      name, and its error can never be mistaken for the registration error:
      the two messages differ for every name. */
  lemma GetCommandCorrected<C>(reg: Registry<C>, name: string, other: string)
    ensures IsRegisteredCommand(reg, name) ==> GetCommand(reg, name) == GetCommandAsWritten(reg, name)
    ensures NotRegistered(name) != AlreadyExists(other)
  {
    var m1 := NotRegistered(name).message;
    var m2 := AlreadyExists(other).message;
    assert m1[|m1| - 1] == 'd' && m2[|m2| - 1] == 's';
  }

  /** After registering a command under a fresh name, looking the name up
      returns that command, and every other name answers as before. */
  lemma GetAfterRegister<C>(reg: Registry<C>, name: string, command: C, other: string)
    requires RegisterCommand(reg, name, command).Ok?
    ensures GetCommand(RegisterCommand(reg, name, command).value, name) == Ok(command)
    ensures other != name ==>
      && GetCommand(RegisterCommand(reg, name, command).value, other) == GetCommand(reg, other)
      && (IsRegisteredCommand(RegisterCommand(reg, name, command).value, other) <==> IsRegisteredCommand(reg, other))
  {
  }

  /** Registering the same name twice fails the second time, and the first
      command stays registered. */
  lemma RegisterTwiceKeepsFirst<C>(reg: Registry<C>, name: string, first: C, second: C)
    requires name !in reg
    ensures var r1 := RegisterCommand(reg, name, first);
      && r1.Ok?
      && RegisterCommand(r1.value, name, second) == Err(AlreadyExists(name))
      && GetCommand(r1.value, name) == Ok(first)
  {
  }
}
