# Log: a minimal logger, modelled in Dafny

The library is one Swift file, `Source/Log.swift`. It defines a `Logger`
that has a name and an ordered list of appenders. It offers six calls, one
per severity rank: `trace`, `debug`, `info`, `warning`, `error` and `fatal`.
Each call builds one `Event` and hands it to every appender, in list order.
An appender is any value with a `name`, a `levels` mask and an `append`
operation.

The model has four modules:

- `Levels` (`levels.dfy`) models the severity flag set `Logger.Level`.
  Its raw value, a Swift `Int32`, is kept as a `bv32`. The six rank
  constants are the bits `1 << 0` to `1 << 5`. `All` is `~0`. Union,
  intersection and containment are the bitwise operations of a flag set.
  Two reference views are proved against these operations:
  - `Ranks(l)` is the set of named ranks a mask contains;
  - `Int32Value(x)` is the signed integer the raw bits denote.
- `Location` (`location.dfy`) models the `LocationInfo` record and its
  `description`, `file:function:line:column`. Integers are rendered in
  decimal, as string interpolation does. A parser for descriptions is the
  partner of the renderer. The round trip is proved for every location
  whose file name has no colon; for any location with a colon in a name,
  another location is shown to render alike.
- `Logging` (`logger.dfy`) models the appender, the `Event` record and the
  `Logger` class. The class has the source's two fields, `appenders` and
  `name`. It also has a ghost trace, `dispatched`, with one entry per call
  of `append`: which appender was called, with which event. `Log` is a
  method with a loop over the appenders. It is proved against `Fanout`, the
  function that gives the calls one event makes.
- `Wrappers` (`wrappers.dfy`) holds the `Option` type. It stands for
  Swift's optionals (`Any?`, `Error?`) and for failed parses.

Appender masks are never consulted by the logger. The `Appender` protocol
declares a `levels` mask (`Source/Log.swift:36`), but the loop in `log`
(`Source/Log.swift:105-107`) calls `append` on every appender whatever that
mask says. The model follows the code. `Levels.Matches` is the filter test
an appender may apply itself. `Logging.InfoReachesErrorOnlyAppender` shows
an appender that does not match an event's level still receiving it.

## Model

| member | source | states |
|---|---|---|
| `Levels.RankIsSingleBit` | Source/Log.swift:48-53 | each named rank's raw value has exactly one bit set; read as an integer it is 2 to the power of the rank's index (1, 2, 4, 8, 16, 32) |
| `Levels.RanksDisjoint` | Source/Log.swift:48-53 | two rank constants share a bit if and only if they are the same rank; distinct ranks have an empty intersection |
| `Levels.RanksOfRank` | Source/Log.swift:48-53 | a rank constant contains exactly its own rank and lies within the six named bits |
| `Levels.NamedIsUnionOfRanks` | Source/Log.swift:48-53 | the six named bits are exactly the union of the six rank constants |
| `Levels.AllIsMinusOne` | Source/Log.swift:54 | `all` (`~0`) read as a signed 32-bit integer is -1, so every bit is set |
| `Levels.AllContains` | Source/Log.swift:54 | `all` contains every mask |
| `Levels.AllIntersection` | Source/Log.swift:54 | intersecting `all` with any mask gives that mask |
| `Levels.AllRanksInAll` | Source/Log.swift:54 | `all` contains all six named ranks and matches each of them |
| `Levels.RankOfUnion` | Source/Log.swift:41 | a union contains a rank if and only if one of its operands does |
| `Levels.RankOfIntersection` | Source/Log.swift:41 | an intersection contains a rank if and only if both operands do |
| `Levels.UnionRanks` | Source/Log.swift:41 | the ranks of a union are the union of the operands' ranks |
| `Levels.IntersectionRanks` | Source/Log.swift:41 | the ranks of an intersection are the intersection of the operands' ranks |
| `Levels.MatchesRank` | Source/Log.swift:41 | a mask shares a bit with a rank constant if and only if it contains that rank |
| `Levels.RanksDetermineNamedPart` | Source/Log.swift:41-55 | two masks contain the same ranks if and only if they agree on the six named bits |
| `Levels.SameRanksSameNamedPart` | Source/Log.swift:41-55 | masks with the same ranks have the same six named bits |
| `Levels.SameNamedPartSameRanks` | Source/Log.swift:41-55 | masks with the same six named bits contain the same ranks |
| `Levels.UnionCommutes` | Source/Log.swift:41 | union of flag sets is commutative |
| `Levels.UnionAssociates` | Source/Log.swift:41 | union of flag sets is associative |
| `Levels.IntersectionCommutes` | Source/Log.swift:41 | intersection of flag sets is commutative |
| `Levels.IntersectionAssociates` | Source/Log.swift:41 | intersection of flag sets is associative |
| `Levels.IntersectionDistributes` | Source/Log.swift:41 | intersection distributes over union |
| `Levels.ContainsIsUnionFixpoint` | Source/Log.swift:41 | `a` contains `m` if and only if adding `m` to `a` leaves `a` unchanged |
| `Levels.ContainsAntisymmetric` | Source/Log.swift:41 | two masks that contain each other are equal |
| `Location.IntToStringRoundTrip` | Source/Log.swift:85 | the decimal rendering of a line or column reads back to the same integer and has no colon in it |
| `Location.IntToStringInjective` | Source/Log.swift:85 | distinct integers render as distinct strings |
| `Location.DescriptionFields` | Source/Log.swift:83-87 | when the file name has no colon, the colon-separated fields of the description are the file, then the fields of the function name, then the line, then the column |
| `Location.DescriptionRoundTrip` | Source/Log.swift:83-87 | when the file name has no colon, the description reads back to the same file, function, line and column, even when the function name contains colons (as Swift function names with parameter labels do) |
| `Location.ColonMakesDescriptionAmbiguous` | Source/Log.swift:83-87 | for every location with a colon in its file or function name, some different location renders to the same description |
| `Location.DescriptionEndsWithLineAndColumn` | Source/Log.swift:83-87 | whatever the names contain, the last two colon-separated fields of a description are the line and the column |
| `Logging.FanoutAt` | Source/Log.swift:105-107 | handing out one event makes one call per appender; the k-th call goes to the k-th appender, with that event |
| `Logging.FanoutAppend` | Source/Log.swift:105-107 | handing out to a concatenated list makes the calls for the first part, then those for the second |
| `Logging.FanoutReachesEveryAppender` | Source/Log.swift:105-107 | the appenders called are the list itself, in order, once each, whatever their masks; every call carries the same event; an empty list makes no call |
| `Logging.InfoReachesErrorOnlyAppender` | Source/Log.swift:36 | an appender subscribed to `error` and `fatal` only receives an `info` event all the same, before an `all` appender that follows it |
| `Logging.Logger.constructor` | Source/Log.swift:74-80 | the appender list equals the argument in the same order, or the single standard-output appender when none is given; the name equals the argument, or `"Logger"` when none is given; nothing has been dispatched |
| `Logging.Logger.Append` | Source/Log.swift:106 | one call of `append` adds exactly that appender and event to the trace |
| `Logging.Logger.Log` | Source/Log.swift:90-108 | the trace grows by exactly one call per appender, in list order, each with the one event built from the level, the logger's name and identity, the payload, the error, the call site and the timestamp; the appenders and the name are unchanged |
| `Logging.Logger.Trace` | Source/Log.swift:110-120 | the same as `Log` at the `trace` rank, with every other argument passed through |
| `Logging.Logger.Debug` | Source/Log.swift:122-132 | the same as `Log` at the `debug` rank, with every other argument passed through |
| `Logging.Logger.Info` | Source/Log.swift:134-144 | the same as `Log` at the `info` rank, with every other argument passed through |
| `Logging.Logger.Warning` | Source/Log.swift:146-156 | the same as `Log` at the `warning` rank, with every other argument passed through |
| `Logging.Logger.Error` | Source/Log.swift:158-168 | the same as `Log` at the `error` rank, with every other argument passed through |
| `Logging.Logger.Fatal` | Source/Log.swift:170-180 | the same as `Log` at the `fatal` rank, with every other argument passed through |

## Left out

- The timestamp: `currentTime` calls `gettimeofday` (`Source/Log.swift:182-186`), a system clock. Each log call takes the timestamp string as a parameter instead, and nothing is claimed about it, including whether successive timestamps increase.
- What an appender does in `append`: the standard-output appender is not part of this model and writes to standard output. Each call is recorded in the ghost trace instead. An appender's `name` and `levels` are kept as values; its identity is its position in the list.
- The payload and the error are `Any?` and `Error?` in Swift. They are type parameters wrapped in `Option`. Dynamic typing and how a payload is displayed are not modelled.
- The call-site literals `#file`, `#function`, `#line` and `#column` are ordinary parameters. Swift's default values for them are not modelled.
- The standard-output appender created by the default argument of `init` is a parameter of the constructor, since its definition is not part of this model.
- Swift's `Int` for line and column is unbounded here. The values are only rendered, so overflow does not arise.
- The flag-set view `Levels.Ranks` sees only the six named bits. Facts about the other 26 bits are stated through the bitwise operations themselves.
- The flag-set operations that Swift provides for every option set but that the library never uses, such as `insert`, `remove`, `subtracting` and `symmetricDifference`, are not modelled.
- Concurrency: the logger has no locking, and calls are modelled one at a time.
- The re-export of the external `C7` module is not part of this model.
