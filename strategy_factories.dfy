/**
 * The two consumer strategy registries. Each holds a map from command to the
 * strategy bean that handles it, built on the first lookup through a small
 * builder and reused afterwards. A map value names which injected strategy
 * object the entry points at.
 */
module StrategyFactories {
  import opened Common
  import opened SessionCommands
  import opened UserActivityCommands

  /** The five session strategy beans the factory is given. */
  datatype SessionStrategyRef = SaveStrategy | UpsertStrategy | UpdateStrategy | DeleteStrategy | ExpireStrategy

  /** The strategy each session command is registered with: each command has its own. */
  function SessionStrategyFor(c: SessionCommand): SessionStrategyRef {
    match c
    case SaveSession => SaveStrategy
    case UpsertSession => UpsertStrategy
    case UpdateSession => UpdateStrategy
    case DeleteSession => DeleteStrategy
    case ExpireSession => ExpireStrategy
  }

  /** No two session commands share a strategy. */
  lemma SessionStrategiesDistinct(c: SessionCommand, d: SessionCommand)
    ensures SessionStrategyFor(c) == SessionStrategyFor(d) ==> c == d
  {
  }

  /** SessionCommandStrategyFactory.StrategyMapBuilder */
  class SessionStrategyMapBuilder {
    var strategies: map<SessionCommand, SessionStrategyRef>

    constructor ()
      ensures strategies == map[]
    {
      strategies := map[];
    }

    method WithStrategy(c: SessionCommand, s: SessionStrategyRef)
      modifies this
      ensures strategies == old(strategies)[c := s]
    {
      strategies := strategies[c := s];
    }

    /** build: the map as it is now; later puts cannot reach it. */
    method Build() returns (m: map<SessionCommand, SessionStrategyRef>)
      ensures m == strategies
    {
      m := strategies;
    }
  }

  class SessionCommandStrategyFactory {
    /** null until the first lookup */
    var strategies: Option<map<SessionCommand, SessionStrategyRef>>

    /** Once built, the map registers every command with its own strategy. */
    ghost predicate Valid()
      reads this
    {
      strategies.Some? ==> forall c :: c in strategies.value && strategies.value[c] == SessionStrategyFor(c)
    }

    constructor ()
      ensures Valid() && strategies.None?
    {
      strategies := None;
    }

    /** initializeStrategies: five puts through the builder. */
    method InitializeStrategies()
      modifies this
      ensures Valid() && strategies.Some?
    {
      var b := new SessionStrategyMapBuilder();
      b.WithStrategy(SaveSession, SaveStrategy);
      b.WithStrategy(UpsertSession, UpsertStrategy);
      b.WithStrategy(UpdateSession, UpdateStrategy);
      b.WithStrategy(DeleteSession, DeleteStrategy);
      b.WithStrategy(ExpireSession, ExpireStrategy);
      var m := b.Build();
      forall c: SessionCommand
        ensures c in m && m[c] == SessionStrategyFor(c)
      {
        match c
        case SaveSession =>
        case UpsertSession =>
        case UpdateSession =>
        case DeleteSession =>
        case ExpireSession =>
      }
      strategies := Some(m);
    }

    /**
     * getStrategy: builds the map if it is still null, then looks the command
     * up; a null command finds nothing. A map already built is kept as it is.
     */
    method GetStrategy(command: Option<SessionCommand>) returns (r: Option<SessionStrategyRef>)
      requires Valid()
      modifies this
      ensures Valid() && strategies.Some?
      ensures old(strategies).Some? ==> strategies == old(strategies)
      ensures r == if command.Some? then Some(SessionStrategyFor(command.value)) else None
    {
      if strategies.None? {
        InitializeStrategies();
      }
      var m := strategies.value;
      r := if command.Some? && command.value in m then Some(m[command.value]) else None;
    }
  }

  /** The one user-activity strategy bean. */
  datatype UserActivityStrategyRef = UnifiedStrategy

  /** UserActivityStrategyFactory.StrategyMapBuilder */
  class UserActivityStrategyMapBuilder {
    var strategies: map<UserActivityCommand, UserActivityStrategyRef>

    constructor ()
      ensures strategies == map[]
    {
      strategies := map[];
    }

    method WithStrategy(c: UserActivityCommand, s: UserActivityStrategyRef)
      modifies this
      ensures strategies == old(strategies)[c := s]
    {
      strategies := strategies[c := s];
    }

    method Build() returns (m: map<UserActivityCommand, UserActivityStrategyRef>)
      ensures m == strategies
    {
      m := strategies;
    }
  }

  class UserActivityStrategyFactory {
    var strategies: Option<map<UserActivityCommand, UserActivityStrategyRef>>

    /** Once built, the map has exactly the two commands, both on the unified strategy. */
    ghost predicate Valid()
      reads this
    {
      strategies.Some? ==>
        strategies.value.Keys == {UserCreation, LoginAttempt}
        && forall c :: c in strategies.value ==> strategies.value[c] == UnifiedStrategy
    }

    constructor ()
      ensures Valid() && strategies.None?
    {
      strategies := None;
    }

    method InitializeStrategies()
      modifies this
      ensures Valid() && strategies.Some?
      ensures |strategies.value.Keys| == 2
    {
      var b := new UserActivityStrategyMapBuilder();
      b.WithStrategy(UserCreation, UnifiedStrategy);
      b.WithStrategy(LoginAttempt, UnifiedStrategy);
      var m := b.Build();
      strategies := Some(m);
    }

    /** getStrategy: both commands resolve to the unified strategy; a null command finds nothing. */
    method GetStrategy(command: Option<UserActivityCommand>) returns (r: Option<UserActivityStrategyRef>)
      requires Valid()
      modifies this
      ensures Valid() && strategies.Some?
      ensures old(strategies).Some? ==> strategies == old(strategies)
      ensures r == if command.Some? then Some(UnifiedStrategy) else None
    {
      if strategies.None? {
        InitializeStrategies();
      }
      var m := strategies.value;
      if command.Some? {
        assert command.value == UserCreation || command.value == LoginAttempt;
        assert command.value in m.Keys;
      }
      r := if command.Some? && command.value in m then Some(m[command.value]) else None;
    }
  }
}
