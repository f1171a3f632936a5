# SpringBootGemFireServer in Dafny

`SpringBootGemFireServer` starts a GemFire cache server. Nearly all of it is
Spring wiring. Two pieces hold their own logic, and this project models both and
proves properties about them.

- **The factorial cache loader.** A GemFire region named "Factorials" calls it on a
  cache miss. It takes a `Long` key. When the key is null or negative, Spring's
  `Assert` throws a `java.lang.IllegalArgumentException`. The loader returns 1, 1
  and 2 for the keys 0, 1 and 2, and otherwise multiplies `n * (n-1) * ... * 2` in a `while (number-- > 2L)`
  loop over a Java `long`. `Factorials.Load` is that loop as an imperative method.
  It is proved to return the factorial reduced to signed 64-bit two's complement,
  for every non-negative key. The reduction is `JavaLang.ToLong`, and Java's
  multiplication wraps the same way. A separate lemma shows that the reduced value
  is the true factorial exactly when the key is at most 20. From 21 on, the value
  is wrong: for 21 it is -4249290049419214848. A thrown exception is modelled as a
  `Failure` result that carries the exception's message. The `%d` in that message
  is written out by `JavaLang.DecimalString`, with ASCII digits.
- **The GemFire properties.** `gemfireProperties` fills a `java.util.Properties`
  object with seven fixed entries. It adds an eighth, `start-locator`, only when
  the configured value passes Spring's `StringUtils.hasText`. Here
  `ServerConfig.Properties` is a class with a mutable `map<string, string>` and the
  `setProperty` method. `ServerConfig.GemfireProperties` makes the same calls in
  the same order, and its contract states the whole resulting table.
  `applicationName()` (the class's simple name, `"SpringBootGemFireServer"`) and
  the constants `DEFAULT_MANAGER_PORT` (1099) and `DEFAULT_LOG_LEVEL` (`"config"`)
  are `ServerConfig.ApplicationName`, `ServerConfig.DefaultManagerPort` and
  `ServerConfig.DefaultLogLevel`; the lemma `ServerConfig.DefaultSettings` states
  what the two defaults are.

Files: `wrappers.dfy` (Option, Result), `java_lang.dfy` (Java `long`/`int`,
wrap-around, decimal and boolean text), `string_utils.dfy` (`hasText`),
`factorials.dfy` (the loader), `server_config.dfy` (the properties).

The inputs that Spring supplies are parameters of the methods: the injected
`@Value` settings and the loader's key, which comes from `LoaderHelper.getKey()`.

The cache loader silently wraps around on overflow, and the model follows that
code.

## Model

| member | source | states |
|---|---|---|
| `Factorials.Load` | src/main/java/org/example/SpringBootGemFireServer.java:143-160 | A null key fails with "Number must not be null". A negative key fails with the "Number [n] must be greater than equal to 0" message. Both happen before any multiplication. Every key n >= 0 returns `ToLong(n!)`, which is exactly `n!` when n <= 20. The loop body runs n - 2 times for n > 2 and not at all for 0, 1 and 2. The loop invariant `result == ToLong(exact)`, `exact * (number-1)! == n!`, `2 <= number <= n` is checked, and the loop leaves with `number == 1` after the last post-decrement. |
| `Factorials.Fact` | src/main/java/org/example/SpringBootGemFireServer.java:149-159 | The reference factorial: 0! = 1 and n! = n * (n-1)!. It is at least 1 and at least n. |
| `Factorials.FactFitsLong` | src/main/java/org/example/SpringBootGemFireServer.java:153-159 | The `long` the loop computes equals the true factorial if and only if n <= 20, since 20! < 2^63 <= 21!. |
| `Factorials.Fact21Wraps` | src/main/java/org/example/SpringBootGemFireServer.java:155-157 | For key 21 the wrapped product is -4249290049419214848. |
| `Factorials.FactMonotone` | src/main/java/org/example/SpringBootGemFireServer.java:155-157 | The factorial never decreases as n grows. This is the step that extends the bound at 20 and at 21 to every smaller or larger key. |
| `JavaLang.ToLong` | src/main/java/org/example/SpringBootGemFireServer.java:153-156 | A Java `long` result is the one value in [-2^63, 2^63) that is congruent to the exact value modulo 2^64. It equals the exact value whenever that value fits. |
| `JavaLang.ToLongMul` | src/main/java/org/example/SpringBootGemFireServer.java:155-157 | Wrapping after every `result *= number` gives the same value as wrapping the exact product once at the end. |
| `JavaLang.DecimalRoundTrip` | src/main/java/org/example/SpringBootGemFireServer.java:76 | The decimal text `String.valueOf(managerPort)` writes, which `%d` also writes at line 147, reads back as the same integer, negative values included. |
| `JavaLang.BooleanString` | src/main/java/org/example/SpringBootGemFireServer.java:77 | `String.valueOf(jmxManagerStart)` is "true" or "false", and it is "true" exactly when the flag is set. |
| `StringUtils.ContainsText` | src/main/java/org/example/SpringBootGemFireServer.java:79 | True if and only if the string has a character that `Character.isWhitespace` rejects. |
| `StringUtils.HasText` | src/main/java/org/example/SpringBootGemFireServer.java:79 | `hasText(startLocator)` holds if and only if the value is non-null and has a non-whitespace character. |
| `Factorials.NegativeKeyMessage` | src/main/java/org/example/SpringBootGemFireServer.java:147 | The message of the failed `number >= 0` assertion is "Number [", then the key as `%d` writes it (exactly `DecimalString` of the key: a sign only for negatives, no leading zeros), then "] must be greater than equal to 0". The text between the brackets reads back as the key. |
| `JavaLang.DecimalString` | src/main/java/org/example/SpringBootGemFireServer.java:76 | `String.valueOf(int)`, which `%d` matches at line 147: the text starts with `-` exactly for negative numbers. After that come one or more decimal digits with no leading zero. The text is "0" exactly for 0. |
| `StringUtils.IsWhitespace` | src/main/java/org/example/SpringBootGemFireServer.java:79 | Java 8's `Character.isWhitespace`, the test `hasText` applies to each character. Every whitespace character lies in the Basic Multilingual Plane. Among ASCII characters, exactly tab, line feed, vertical tab, form feed, carriage return, U+001C to U+001F and space count. The no-break spaces U+00A0, U+2007 and U+202F never count. |
| `ServerConfig.ApplicationName` | src/main/java/org/example/SpringBootGemFireServer.java:55-57 | `applicationName()` is the class's simple name: `org.example.` followed by the result is the class's qualified name, and the result contains no `.`. |
| `ServerConfig.DefaultSettings` | src/main/java/org/example/SpringBootGemFireServer.java:45-47 | The decimal text of `DEFAULT_MANAGER_PORT`, as `jmx-manager-port` would hold it, is "1099". `DEFAULT_LOG_LEVEL` is "config", which has text. |
| `ServerConfig.Properties.constructor` | src/main/java/org/example/SpringBootGemFireServer.java:69 | A new `Properties` object is empty. |
| `ServerConfig.Properties.SetProperty` | src/main/java/org/example/SpringBootGemFireServer.java:71-80 | `setProperty` binds the key to the value and leaves every other entry as it was. It returns the value it replaced, or none if the key was absent. |
| `ServerConfig.GemfireProperties` | src/main/java/org/example/SpringBootGemFireServer.java:55-84 | The result is a new object. Its keys are exactly the seven fixed ones, plus `start-locator` when `startLocator` has text, so it holds 7 or 8 entries. The values are: `name` is "SpringBootGemFireServer", `mcast-port` is "0", `log-level` is `logLevel`, `locators` is `locators`, `jmx-manager` is "true", `jmx-manager-port` is the decimal text of `managerPort` (which reads back as `managerPort`), `jmx-manager-start` is "true" or "false" from the flag, and `start-locator` is the configured value. |
| `ServerConfig.PropertiesKeys` | src/main/java/org/example/SpringBootGemFireServer.java:69-83 | After the seven fixed calls and the conditional insert, the key set is the fixed keys plus `start-locator` if and only if the value has text. The seven keys are distinct, so the table holds 7 or 8 entries. |
| `ServerConfig.PropertiesValues` | src/main/java/org/example/SpringBootGemFireServer.java:71-80 | The same table maps each fixed key to its value and `start-locator` to the configured value. The port's text reads back as the port. |

## Left out

- Spring bootstrap and dependency injection are not modelled: `main`, the `@Bean` framework semantics, `@Qualifier`, and `@Value` placeholder and default resolution. The resolved settings are method parameters instead. So `DefaultManagerPort` and `DefaultLogLevel` are declared here but nothing here applies them.
- `logLevel` and `locators` are modelled as non-null strings, because the `@Value` defaults always supply a value. A null there would make `setProperty` throw, and that path is not modelled. `startLocator` may be null, because `hasText` handles null.
- The GemFire factory beans `CacheFactoryBean`, `CacheServerFactoryBean`, `PartitionedRegionFactoryBean` and `RegionAttributesFactoryBean` are not modelled. They only pass values to setters of a library that is not part of this model. That includes the 15-second ping interval.
- `DEFAULT_CACHE_SERVER_PORT` and `DEFAULT_LOCATOR_PORT` are not modelled. Their values come from GemFire classes that are not part of this model.
- The `logger.warn` call in `gemfireProperties` is left out, because it is I/O.
- The loader's empty `close()` is left out, and so is `factorialsCacheLoader()` handing out a fresh, stateless loader object. `Load` is a module-level method because the loader has no state.
- Partitioning, locator membership, client/server forwarding and replication are not modelled. Neither is the coalescing of concurrent loads for the same missing key. All of this happens inside the GemFire product, not in this code.
- `StringUtils.IsWhitespace` models Java 8's table (Unicode 6.2), the Java that GemFire 8 runs on; from Java 9 on, U+180E is no longer whitespace. It works on Unicode scalar values, but Java's `Character.isWhitespace(char)` works on UTF-16 code units. The two agree on every character it accepts, since all of them are in the Basic Multilingual Plane.
- `Factorials.NegativeKeyMessage` assumes a default locale whose digits are ASCII. `String.format` formats `%d` with the JVM's default locale, which can use other digits, for example Thai digits under `th-TH-u-nu-thai`. `String.valueOf(int)` in `jmx-manager-port` does not depend on the locale.
