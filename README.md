# Generic CRUD scaffold: reflection helpers, service, controller, config-file loading

This project models the core of the `org.barrikeit` Spring scaffold in Dafny and proves
properties of the model. The core has five parts.

- **`ReflectionUtil` (module `Reflection`, `reflection.dfy`).** The accessor-based get and set
  of a field, and the walks over declared and inherited fields. Those walks cover
  annotation-filtered lookup, dotted-name flattening of nested fields, and the name and value
  collectors. The part also covers `castFieldToType`. The JVM's reflection API is replaced by
  an explicit model: a class is a value holding its declared fields, its methods and its
  superclass, and an object is its runtime class plus a map from field name to value.
- **`GenericService` (module `Crud`, `crud.dfy`).** The service is a class over a repository
  class. The repository holds a map from identifier to entity and an identifier counter,
  standing in for `JpaRepository`. The service's read operations are functions that read the
  repository. `save`, `update` and `delete` are methods that modify it. `findAll` returns rows
  ordered by ascending id; `findAll(sort)` returns a sorted permutation of the rows.
- **`GenericController` (module `Rest`, `rest.dfy`).** A class whose five handlers delegate to
  the service. Each handler answers a response with its status (200, 204) and body, or the
  exception raised. That exception is `NotFoundException` (404) from the service, or a body
  refused by `@Validated` (400).
- **`FileUtil` config loading (module `ConfigFiles`, `config_files.dfy`).**
  - `MutablePropertySources` is a class with a `sources` sequence; `addLast` replaces a source
    of the same name.
  - The two file readers and `resolvePath` are modelled.
  - `getPropertyList` and the search for the first `application.<ext>` file are modelled, as is
    the loading of the files that file imports through `spring.config.import`.
  - The classpath is a map from resource path to what the properties and YAML readers make of
    it.
- **`config/ApplicationConfiguration` (module `AppConfig`, `app_config.dfy`).**
  - Its private loading methods are textually the same code as `FileUtil`'s, so they are the
    members of `ConfigFiles`.
  - This module fixes the three locations and the three extensions.
  - It proves the nine main-file candidates and their order.
  - It models the `PropertySourcesPlaceholderConfigurer` bean.

`common.dfy` holds `Option`, `Result`, `Outcome` and the string predicates `StartsWith`
and `EndsWith`.

Where a loop of the source walks a list, the model has a method with that loop. The method is
proved equal to a recursive function, and the properties are proved about that function as
lemmas. Examples: `GetAllFields` and `AllFields`, `GetFieldValuesWithAnnotation` and
`AnnotatedValues`, `GetPropertyList` and `PropertyList`, `LoadConfigFiles` and `Search`.

## Model

| member | source | states |
|---|---|---|
| Reflection.Chain | src/main/java/org/barrikeit/util/ReflectionUtil.java:108-115 | the superclass chain that `getAllFields` walks starts at the class itself and is never empty |
| Reflection.ClassNames | src/main/java/org/barrikeit/util/ReflectionUtil.java:225 | the names of a class, of its superclasses and of every interface they implement, as `isInstance` accepts them; they include the class's own name and interfaces and the names above its superclass |
| Reflection.BuiltinTypeNames | src/main/java/org/barrikeit/util/ReflectionUtil.java:225 | the JDK classes and interfaces each built-in value kind is an instance of (`Integer` is a `Number`, `String` a `CharSequence`, ...), its runtime class among them |
| Reflection.AccessorName | src/main/java/org/barrikeit/util/ReflectionUtil.java:56 | the getter or setter name is the verb, then the first character of the field name upper-cased, then the rest of the field name, character by character |
| Reflection.AccessorNameCollision | src/main/java/org/barrikeit/util/ReflectionUtil.java:56 | two field names give the same accessor name exactly when their first characters upper-case alike and their tails are equal |
| Reflection.GetterIsNotSetter | src/main/java/org/barrikeit/util/ReflectionUtil.java:56-57 | a getter name is never a setter name |
| Reflection.FindDeclared | src/main/java/org/barrikeit/util/ReflectionUtil.java:57 | the method found among one class's declared methods has the requested name and parameters; when none is found, no declared method matches |
| Reflection.FindMethod | src/main/java/org/barrikeit/util/ReflectionUtil.java:57 | `findMethod` along the superclass chain finds nothing exactly when neither the class nor any superclass declares such a method; what it finds matches name and parameters; a method the class itself declares wins over any superclass's |
| Reflection.Getter | src/main/java/org/barrikeit/util/ReflectionUtil.java:56-57 | the getter `getFieldValue` looks up: `findMethod` of the accessor name with no parameters (no contract of its own) |
| Reflection.Setter | src/main/java/org/barrikeit/util/ReflectionUtil.java:77-78 | the setter `setFieldValue` looks up: `findMethod` of the accessor name with `value.getClass()` as its one parameter (no contract of its own) |
| Reflection.GetFieldValue | src/main/java/org/barrikeit/util/ReflectionUtil.java:53-65 | an empty field name fails in `substring` and only that input does; a missing getter gives null; with a getter, the call fails exactly when invoking it faults (`FieldValueException` for the get), and otherwise answers the value of the field that getter reads; a non-null result is one of the object's field values |
| Reflection.GetterSharedByNames | src/main/java/org/barrikeit/util/ReflectionUtil.java:56-59 | two field names that differ only in the case of their first letter reach the same getter, so they succeed together and answer the same value |
| Reflection.Assigned | src/main/java/org/barrikeit/util/ReflectionUtil.java:75-85 | the effect of `setFieldValue` on an object's value: an empty name fails in `substring`; a null value fails in `getClass()`; a missing setter leaves the object unchanged; with a setter, the call fails exactly when invoking it faults (`FieldValueException` for the set); the runtime class is kept; a working setter leaves the value in the field it writes and every other field unchanged |
| Reflection.GetAfterSet | src/main/java/org/barrikeit/util/ReflectionUtil.java:53-85 | when a working setter and a working getter found for a name stand for the same field, a set succeeds and a following get returns the value set |
| Reflection.SetFieldValue | src/main/java/org/barrikeit/util/ReflectionUtil.java:75-85 | the bean's new state is that of `Assigned` on success; on an exception the method reports it and the state is unchanged |
| Reflection.AllFieldsLength | src/main/java/org/barrikeit/util/ReflectionUtil.java:108-115 | the list holds as many fields as the classes of the chain declare together |
| Reflection.AllFieldsMembership | src/main/java/org/barrikeit/util/ReflectionUtil.java:108-115 | a field is listed exactly when some class of the superclass chain declares it |
| Reflection.GetAllFields | src/main/java/org/barrikeit/util/ReflectionUtil.java:108-115 | the loop yields the declared fields of the class, then those of each superclass in turn (`AllFields`) |
| Reflection.SelectMembers | src/main/java/org/barrikeit/util/ReflectionUtil.java:128-133 | filtering keeps exactly the fields that pass the test (annotated, or non-static and unannotated) and never lengthens the list |
| Reflection.SelectAppend | src/main/java/org/barrikeit/util/ReflectionUtil.java:128-133 | filtering distributes over concatenation, so declaration order is kept |
| Reflection.GetAllAnnotatedFields | src/main/java/org/barrikeit/util/ReflectionUtil.java:126-137 | `NotFoundException(annotation, class)` exactly when no field of the chain carries the annotation; otherwise the annotated fields of the chain, in order |
| Reflection.FullFieldName | src/main/java/org/barrikeit/util/ReflectionUtil.java:216-218 | without a parent the name is the child; with one it is `parent.` followed by the child |
| Reflection.FullFieldNameInjective | src/main/java/org/barrikeit/util/ReflectionUtil.java:216-218 | under one parent, distinct child names give distinct dotted names |
| Reflection.FullFieldNameNoExtension | src/main/java/org/barrikeit/util/ReflectionUtil.java:216-218 | a dotted name whose last segment has no dot never lies below another sibling's dotted name |
| Reflection.NamesAt | src/main/java/org/barrikeit/util/ReflectionUtil.java:161-164 | the collected names match the fields one for one, each being the field's dotted name |
| Reflection.NamesSnoc | src/main/java/org/barrikeit/util/ReflectionUtil.java:161-164 | collecting one more field appends exactly that field's dotted name |
| Reflection.EntriesKeys | src/main/java/org/barrikeit/util/ReflectionUtil.java:140-148 | the flattened map has a key exactly for each field's dotted name, mapped to a field of that name |
| Reflection.EntriesAppend | src/main/java/org/barrikeit/util/ReflectionUtil.java:140-153 | the map of a concatenation is the first map overridden by the second (`putAll`) |
| Reflection.EntriesLastWins | src/main/java/org/barrikeit/util/ReflectionUtil.java:147 | a field whose name no later field repeats is the one stored under that name (`put` overwrites) |
| Reflection.GetAllNestedFields | src/main/java/org/barrikeit/util/ReflectionUtil.java:139-155 | on a hierarchy where the recursion ends, the map sends each dotted name along the chain to its field; an ancestor's field overrides a same-named field of a subclass |
| Reflection.AncestorFieldWins | src/main/java/org/barrikeit/util/ReflectionUtil.java:150-153 | every entry of the superclass's map appears unchanged in the subclass's map, because the superclass is merged last |
| Reflection.NestedFieldsDiverge | src/main/java/org/barrikeit/util/ReflectionUtil.java:141-145 | on a domain class that declares a field, the code as written recurses into the same class with the same field list and never returns, whatever the depth bound |
| Reflection.NestedFieldsDivergeInChain | src/main/java/org/barrikeit/util/ReflectionUtil.java:139-155 | on any class that is not nesting-free (some class of its chain, the class itself or an ancestor, is a domain class declaring a field) the code as written never returns, whatever the depth bound; with `NestedFieldsAsWrittenAgrees` this makes nesting-free exactly the classes on which it returns |
| Reflection.DeclaredEntriesDiverge | src/main/java/org/barrikeit/util/ReflectionUtil.java:141-145 | the loop over the declared fields of such a class never returns either |
| Reflection.NestedFieldsAsWritten | src/main/java/org/barrikeit/util/ReflectionUtil.java:139-155 | `getAllNestedFields` exactly as written, with a depth bound: None when the bound runs out (no contract of its own; `NestedFieldsDiverge` and `NestedFieldsAsWrittenAgrees` state what it does) |
| Reflection.DeclaredEntriesAsWritten | src/main/java/org/barrikeit/util/ReflectionUtil.java:141-149 | the loop over the declared fields of `getAllNestedFields` as written, including its recursive call on the declaring class (no contract of its own; `DeclaredEntriesDiverge` and `DeclaredEntriesAgree` state what it does) |
| Reflection.NestedFieldsAsWrittenAgrees | src/main/java/org/barrikeit/util/ReflectionUtil.java:139-155 | when no domain class of the chain declares a field, the recursion as written returns, given depth enough, exactly the map that `GetAllNestedFields` computes |
| Reflection.NestedFieldsStep | src/main/java/org/barrikeit/util/ReflectionUtil.java:139-155 | one level of that recursion: if the superclass's call agrees, so does the class's |
| Reflection.DeclaredEntriesAgree | src/main/java/org/barrikeit/util/ReflectionUtil.java:141-149 | on a non-domain class, or with no fields, the declared-field loop as written puts each field under its dotted name |
| Reflection.GetFieldNamesWithOutAnnotation | src/main/java/org/barrikeit/util/ReflectionUtil.java:174-186 | the dotted names of the declared non-static unannotated fields, in declaration order |
| Reflection.GetFieldNamesWithAnnotation | src/main/java/org/barrikeit/util/ReflectionUtil.java:157-172 | the dotted names of the declared annotated fields, in declaration order (see Left out for the recursive branch) |
| Reflection.AnnotatedValuesErrorSticks | src/main/java/org/barrikeit/util/ReflectionUtil.java:203-211 | once a getter raises, the walk stops with that exception and later fields change nothing |
| Reflection.GetFieldValuesWithAnnotation | src/main/java/org/barrikeit/util/ReflectionUtil.java:199-214 | the loop computes `AnnotatedValues`, the map or the first exception of a getter; so its keys are exactly the annotated names, at every depth, reached through unannotated entity or DTO values (`AnnotatedValuesKeySet`) |
| Reflection.AnnotatedValues | src/main/java/org/barrikeit/util/ReflectionUtil.java:199-214 | the loop of `getFieldValuesWithAnnotation` as a recursive function over the declared fields (no contract of its own; `AnnotatedValuesKeySet`, `AnnotatedValueRecorded`, `AnnotatedNestedRecorded`, `AnnotatedValuesSkip`, `AnnotatedValuesOrigin`, `AnnotatedValuesKeys`, `AnnotatedValuesNoFault` and `AnnotatedValuesErrorSticks` state its properties) |
| Reflection.AnnotatedValuesNoFault | src/main/java/org/barrikeit/util/ReflectionUtil.java:204 | a successful walk called every field's getter without an exception |
| Reflection.KeyBelow | src/main/java/org/barrikeit/util/ReflectionUtil.java:205-210 | every key a nested walk under `full` produces starts with `full.` |
| Reflection.AnnotatedValuesKeys | src/main/java/org/barrikeit/util/ReflectionUtil.java:199-214 | every key of the map is either the dotted name of an annotated declared field, or lies below the dotted name of an unannotated declared field; this is the shape only, and `AnnotatedValuesOrigin` follows the values |
| Reflection.AnnotatedValueRecorded | src/main/java/org/barrikeit/util/ReflectionUtil.java:204-208 | on dot-free field names with distinct names, each annotated declared field is in the map under its dotted name with its getter's value (null included) |
| Reflection.PrefixClash | src/main/java/org/barrikeit/util/ReflectionUtil.java:199-214 | a key below both `parent.x.` and `parent.y.`, for dot-free `x` and `y`, forces `x == y`: the nested entries of two different fields never collide |
| Reflection.AnnotatedValuesOrigin | src/main/java/org/barrikeit/util/ReflectionUtil.java:199-214 | every key of the map comes from a declared field through the values: it is an annotated field's dotted name, or a key of the walk of the entity or DTO that an unannotated field holds, under that field's dotted name |
| Reflection.NestedKeyBelow | src/main/java/org/barrikeit/util/ReflectionUtil.java:209-210 | a key that comes from an unannotated field's nested walk lies below that field's dotted name |
| Reflection.AnnotatedNestedRecorded | src/main/java/org/barrikeit/util/ReflectionUtil.java:209-210 | on well-named fields, every entry of the walk of an entity or DTO held by an unannotated field is in the map, with the nested walk's value; no other field's entry replaces it |
| Reflection.AnnotatedValuesSkip | src/main/java/org/barrikeit/util/ReflectionUtil.java:204-212 | on well-named fields, an unannotated field whose value is not an entity or DTO contributes nothing: no key lies below its dotted name |
| Reflection.AnnotatedValuesKeySet | src/main/java/org/barrikeit/util/ReflectionUtil.java:188-214 | on well-named fields, a key is in the map if and only if it comes from a declared field: an annotated field's dotted name, or a key of a nested entity or DTO walk under an unannotated field's name |
| Reflection.CastFieldToType | src/main/java/org/barrikeit/util/ReflectionUtil.java:221-251 | null gives null; a value already of the target type (its class, a superclass or an interface) is returned unchanged; a String target always succeeds, with `toString()` of a value that is not a string; any success conforms to the target (a box for a primitive target); the only errors are "Failed to cast value" and "Unsupported cast type"; another class the value is not an instance of is unsupported; a date target from a value that is not text or a date is unsupported |
| Reflection.IsInstance | src/main/java/org/barrikeit/util/ReflectionUtil.java:225 | `targetType.isInstance(value)`: the listed final classes match their own kind only, a primitive target never matches, and any other class matches when it is `Object` or one of the value's class, superclass or interface names (no contract of its own) |
| Reflection.CastToSupertype | src/main/java/org/barrikeit/util/ReflectionUtil.java:225-226 | an `Integer` cast to `Number`, a `String` cast to `CharSequence` and an object cast to an interface of its class are passed through unchanged |
| Reflection.DateRoundTrip | src/main/java/org/barrikeit/util/ReflectionUtil.java:239-244 | `LocalDate` to `LocalDateTime` gives the start of the day, and that converts back to the same date |
| Crud.Insert | src/main/java/org/barrikeit/service/GenericService.java:52-54 | inserting an entity into a row list adds exactly that entity to its multiset |
| Crud.InsertSorted | src/main/java/org/barrikeit/service/GenericService.java:52-54 | insertion keeps a sorted list sorted |
| Crud.SortBy | src/main/java/org/barrikeit/service/GenericService.java:52-54 | the rows as `findAll(sort)` orders them: sorted by the key in the direction, and a permutation of the input |
| Crud.InsertLast | src/main/java/org/barrikeit/service/GenericService.java:52-54 | an entity that precedes none of the rows is inserted after all of them |
| Crud.SortBySorted | src/main/java/org/barrikeit/service/GenericService.java:52-54 | sorting a list already sorted leaves it unchanged |
| Crud.SortedKeys | src/main/java/org/barrikeit/service/GenericService.java:40-44 | the identifiers of a set in strictly ascending order, each exactly once |
| Crud.KeyOrder | src/main/java/org/barrikeit/service/GenericService.java:40-44 | one row per stored identifier |
| Crud.KeyOrderListsRows | src/main/java/org/barrikeit/service/GenericService.java:40-44 | the id order lists exactly the stored entities, with strictly ascending `id` (`Sort.by(ASC, "id")`) |
| Crud.KeyOrderMembers | src/main/java/org/barrikeit/service/GenericService.java:40-44 | the id order lists an entity exactly when it is stored |
| Crud.KeyOrderAscending | src/main/java/org/barrikeit/service/GenericService.java:40-44 | the id order's `id` values strictly ascend |
| Crud.Stored | src/main/java/org/barrikeit/service/GenericService.java:120-123 | `save` gives an entity without identifier the repository's next identifier and keeps an entity with an identifier as it is; the attributes are kept |
| Crud.Repository.FindById | src/main/java/org/barrikeit/service/GenericService.java:82-87 | present exactly when the id is stored, and then the stored entity |
| Crud.Repository.FindAll | src/main/java/org/barrikeit/service/GenericService.java:52-54 | every stored entity once, sorted by the given sort |
| Crud.Repository.Save | src/main/java/org/barrikeit/service/GenericService.java:120-123 | the saved entity is stored under its identifier, which overwrites any row with that id; the repository stays valid |
| Crud.Repository.DeleteById | src/main/java/org/barrikeit/service/GenericService.java:144-147 | removes the row with that id if there is one, and otherwise changes nothing |
| Crud.FindAllById | src/main/java/org/barrikeit/service/GenericService.java:40-44 | sorting by ascending `id` is the id order |
| Crud.Updated | src/main/java/org/barrikeit/service/GenericService.java:132-137 | the updated entity keeps the identifier it was found under |
| Crud.GenericService.FindAllEntity | src/main/java/org/barrikeit/service/GenericService.java:61-63 | every stored entity once, by strictly ascending id |
| Crud.GenericService.FindAll | src/main/java/org/barrikeit/service/GenericService.java:40-44 | the DTOs of `findAllEntity()`, element by element |
| Crud.GenericService.FindAllEntitySorted | src/main/java/org/barrikeit/service/GenericService.java:71-73 | every stored entity once, sorted by the given sort |
| Crud.GenericService.FindAllSorted | src/main/java/org/barrikeit/service/GenericService.java:52-54 | the DTOs of `findAllEntity(sort)`, element by element |
| Crud.GenericService.FindEntity | src/main/java/org/barrikeit/service/GenericService.java:96-100 | `NotFoundException(NOT_FOUND, id)` exactly when the id is not stored; otherwise the stored entity |
| Crud.GenericService.Find | src/main/java/org/barrikeit/service/GenericService.java:82-87 | fails exactly as `findEntity` does, with the same exception; otherwise the DTO of the stored entity |
| Crud.GenericService.SaveDto | src/main/java/org/barrikeit/service/GenericService.java:108-112 | the mapped entity is stored under its assigned id, and the DTO of the stored entity is returned |
| Crud.GenericService.SaveEntity | src/main/java/org/barrikeit/service/GenericService.java:120-123 | the entity as stored is returned and is the row under its id |
| Crud.GenericService.Update | src/main/java/org/barrikeit/service/GenericService.java:132-137 | a missing id raises `NotFoundException` and changes nothing; otherwise the entity is rewritten by the mapper, saved under the same id, and its DTO returned |
| Crud.GenericService.Delete | src/main/java/org/barrikeit/service/GenericService.java:144-147 | the row under the id is gone and every other row is kept |
| Crud.SaveThenFind | src/main/java/org/barrikeit/service/GenericService.java:82-112 | `save(dto)` stores the entity under the next identifier and answers its DTO, and `find` of that identifier then answers the same DTO |
| Crud.DeleteThenFind | src/main/java/org/barrikeit/service/GenericService.java:82-87 | after `delete(id)`, `find(id)` raises `NotFoundException(NOT_FOUND, id)` |
| Rest.ErrorStatus | src/main/java/org/barrikeit/rest/GenericController.java:55-68 | a service exception answers 404; a body refused by validation answers 400 |
| Rest.OkOrRaise | src/main/java/org/barrikeit/rest/GenericController.java:55-57 | `ok(result)` with status 200 and the result as body exactly when the service returned; otherwise the service exception propagates unchanged |
| Rest.GenericController.FindAll | src/main/java/org/barrikeit/rest/GenericController.java:43-46 | status 200 with `service.findAll()` as body |
| Rest.GenericController.FindById | src/main/java/org/barrikeit/rest/GenericController.java:54-57 | `NotFoundException(NOT_FOUND, id)` exactly when the id is not stored; otherwise 200 with the stored entity's DTO |
| Rest.GenericController.Save | src/main/java/org/barrikeit/rest/GenericController.java:65-68 | a body refused by validation answers 400 and stores nothing; otherwise the DTO is saved and 200 answers the saved DTO |
| Rest.GenericController.Update | src/main/java/org/barrikeit/rest/GenericController.java:77-80 | a missing id raises `NotFoundException` and changes nothing; otherwise the updated row is stored and 200 answers its DTO |
| Rest.GenericController.Delete | src/main/java/org/barrikeit/rest/GenericController.java:88-92 | the row is deleted if present, and 204 answers with no body in every case |
| ConfigFiles.Without | src/main/java/org/barrikeit/util/FileUtil.java:79 | the sources not bearing a name: exactly the others; unchanged when none bears the name |
| ConfigFiles.WithoutAppend | src/main/java/org/barrikeit/util/FileUtil.java:79 | removing a name works piece by piece over a concatenation, so the remaining sources keep their order |
| ConfigFiles.WithoutDistinct | src/main/java/org/barrikeit/util/FileUtil.java:79 | removing a name from sources with distinct names leaves distinct names |
| ConfigFiles.PropertySources.AddLast | src/main/java/org/barrikeit/util/FileUtil.java:79 | `addLast` removes any source of the same name and appends the new one, and it keeps the source names distinct |
| ConfigFiles.AddSource | src/main/java/org/barrikeit/util/FileUtil.java:74-98 | a successful read appends a source named by the path and reports true; a failed read changes nothing and reports false |
| ConfigFiles.LoadFile | src/main/java/org/barrikeit/util/FileUtil.java:55-72 | true exactly when the resource exists, has a `.properties`, `.yaml` or `.yml` name and its reader succeeds; then the last source is an enumerable one named by the path and holding what the reader picked by the suffix read (properties for `.properties`, YAML otherwise), after the earlier sources minus that name; otherwise nothing changes |
| ConfigFiles.LoadFileAppends | src/main/java/org/barrikeit/util/FileUtil.java:55-98 | loading a new file name keeps every earlier source in place and adds one |
| ConfigFiles.LoadPropertiesFile | src/main/java/org/barrikeit/util/FileUtil.java:74-85 | the sources and the answer are those of `AddSource` with the properties reader |
| ConfigFiles.LoadYamlFile | src/main/java/org/barrikeit/util/FileUtil.java:87-98 | the sources and the answer are those of `AddSource` with the YAML reader |
| ConfigFiles.LoadFileIntoPropertySources | src/main/java/org/barrikeit/util/FileUtil.java:55-72 | the sources and the answer are those of `LoadFile` |
| ConfigFiles.TrimSlash | src/main/java/org/barrikeit/util/FileUtil.java:104 | one trailing slash is removed, and a base without one is kept |
| ConfigFiles.ResolvePath | src/main/java/org/barrikeit/util/FileUtil.java:100-108 | an absolute import is kept; a `../` import is glued to the trimmed base; any other is put below the trimmed base after a `/` |
| ConfigFiles.ResolvePathDeadTest | src/main/java/org/barrikeit/util/FileUtil.java:105 | the `startsWith("/")` test of the second condition never decides anything: the result equals the three-way case split without it |
| ConfigFiles.ResolvePathTrailingSlash | src/main/java/org/barrikeit/util/FileUtil.java:104 | a base with a trailing slash resolves like the same base without it |
| ConfigFiles.ResolvePathEndsWithImport | src/main/java/org/barrikeit/util/FileUtil.java:100-108 | every resolved path ends with the import, and a relative one starts with the trimmed base |
| ConfigFiles.EntryValues | src/main/java/org/barrikeit/util/FileUtil.java:116-121 | one source contributes at most one value per entry |
| ConfigFiles.EntryValuesMembership | src/main/java/org/barrikeit/util/FileUtil.java:116-121 | a value is collected from a source exactly when some entry whose name starts with the prefix holds that string |
| ConfigFiles.PropertyListMembership | src/main/java/org/barrikeit/util/FileUtil.java:110-125 | a value is in the list exactly when some enumerable source has an entry under the prefix holding that string |
| ConfigFiles.PropertyListAppend | src/main/java/org/barrikeit/util/FileUtil.java:113-123 | the values are collected source by source, in source order |
| ConfigFiles.GetPropertyList | src/main/java/org/barrikeit/util/FileUtil.java:110-125 | the loop computes `PropertyList` over the current sources |
| ConfigFiles.LoadImports | src/main/java/org/barrikeit/util/FileUtil.java:44-47 | each import in turn resolved against the location and loaded, a failing one skipped (no contract of its own; `ImportsNotFollowed` states what it adds) |
| ConfigFiles.WithImports | src/main/java/org/barrikeit/util/FileUtil.java:44-47 | the sources once the main file is loaded and every `spring.config.import` value that `getPropertyList` then collects is loaded, resolved against the main file's location (no contract of its own; `SearchAtFirstHit` and `SearchFirstHit` state the search it completes) |
| ConfigFiles.SearchAt | src/main/java/org/barrikeit/util/FileUtil.java:41-50 | when no extension loads at a location, the sources are unchanged |
| ConfigFiles.Search | src/main/java/org/barrikeit/util/FileUtil.java:39-53 | when no main file loads, false is returned and the sources are unchanged |
| ConfigFiles.FollowImports | src/main/java/org/barrikeit/util/FileUtil.java:44-47 | each import value, resolved against the location, is loaded in turn, and a failing one is skipped |
| ConfigFiles.SearchLocation | src/main/java/org/barrikeit/util/FileUtil.java:41-50 | the inner loop computes `SearchAt` |
| ConfigFiles.SearchStep | src/main/java/org/barrikeit/util/FileUtil.java:40-52 | a hit at the first location ends the search there; a miss moves on to the next location |
| ConfigFiles.LoadConfigFiles | src/main/java/org/barrikeit/util/FileUtil.java:39-53 | the nested loop with its early return computes `Search` |
| ConfigFiles.CandidatesAt | src/main/java/org/barrikeit/util/FileUtil.java:41-43 | the candidates at a location are `application.<ext>` resolved against it, one per extension, in order |
| ConfigFiles.Candidates | src/main/java/org/barrikeit/util/FileUtil.java:40-43 | locations times extensions candidates in all |
| ConfigFiles.FirstHit | src/main/java/org/barrikeit/util/FileUtil.java:40-52 | the first candidate that loads, with none before it loading; none exactly when no candidate loads |
| ConfigFiles.FirstHitAppend | src/main/java/org/barrikeit/util/FileUtil.java:40-52 | the first hit of a concatenation is from the first part if it has one |
| ConfigFiles.SearchAtFirstHit | src/main/java/org/barrikeit/util/FileUtil.java:41-50 | the search at one location loads exactly its first loadable candidate, then its imports |
| ConfigFiles.SearchFirstHit | src/main/java/org/barrikeit/util/FileUtil.java:39-53 | the whole search loads exactly the first loadable candidate in location-major order, then that file's imports, and nothing else |
| ConfigFiles.ImportsNotFollowed | src/main/java/org/barrikeit/util/FileUtil.java:44-47 | following imports adds only sources named by a resolved import of the main file: imports of imported files are not followed |
| AppConfig.MainFileIsRelative | src/main/java/org/barrikeit/config/ApplicationConfiguration.java:54-55 | `application.<ext>` is relative, so it resolves to the trimmed location, a `/`, and the file name |
| AppConfig.CandidatesAtLocation | src/main/java/org/barrikeit/config/ApplicationConfiguration.java:52-55 | at each location the candidates are the trimmed location, `/`, `application.` and each extension in turn |
| AppConfig.LocationFolders | src/main/java/org/barrikeit/config/ApplicationConfiguration.java:34 | the three locations trimmed are the root, `/config` and `/configuration` |
| AppConfig.NineCandidates | src/main/java/org/barrikeit/config/ApplicationConfiguration.java:34-35 | the candidates are the three extensions at `/`, then at `/config/`, then at `/configuration/` |
| AppConfig.ResolvePathExamples | src/main/java/org/barrikeit/config/ApplicationConfiguration.java:112-120 | `../x.yml` against `/config/` gives `/config../x.yml`; a `classpath:` import is kept whatever the base |
| AppConfig.LoadConfigFiles | src/main/java/org/barrikeit/config/ApplicationConfiguration.java:51-65 | the search over the fixed locations and extensions |
| AppConfig.OneMainFile | src/main/java/org/barrikeit/config/ApplicationConfiguration.java:51-65 | the search loads only the first of the nine candidates that loads, and succeeds exactly when one of the nine loads |
| AppConfig.Configurer.SetPropertySources | src/main/java/org/barrikeit/config/ApplicationConfiguration.java:43 | the sources are set and the flags are kept |
| AppConfig.Configurer.SetIgnoreUnresolvablePlaceholders | src/main/java/org/barrikeit/config/ApplicationConfiguration.java:46 | the flag is set and the rest is kept |
| AppConfig.Configurer.SetIgnoreResourceNotFound | src/main/java/org/barrikeit/config/ApplicationConfiguration.java:47 | the flag is set and the rest is kept |
| AppConfig.PropertySourcesPlaceholderConfigurer | src/main/java/org/barrikeit/config/ApplicationConfiguration.java:37-49 | a fresh configurer with both tolerance flags set, holding the loaded sources exactly when a main file was found |

## Left out

- `ReflectionUtil.newInstance` and `getParameterizedTypeClass`: they work only through the
  JVM's reflective constructors and generic signatures, which the class model does not have.
- The JVM reflection API itself (`getDeclaredFields`, `isAnnotationPresent`, Spring's
  `ReflectionUtils.findMethod`, `Method.invoke`): these are replaced by explicit data. Whether
  an invocation faults is a flag on the method, and an accessor names the one field it reads or
  writes. An accessor that computes its value, or writes more than one field, is not modelled.
- A null `instance` is not modelled (its `NullPointerException`); objects are always present.
- Reflection.UpperCase: maps only ASCII `a`–`z`, while `String.toUpperCase` maps every letter
  of the default locale.
- Reflection.FindMethod: searches the superclass chain only, not interface default methods,
  and matches parameter types by exact class name.
- Reflection.CastFieldToType: the parsers of `Integer`, `Long`, `Float`, `Double`, `BigDecimal`
  and `TimeUtil`, and every `toString()`, are parameters. Their results are not specified, so
  floating point and decimal parsing are not modelled. `toString()` is assumed not to throw:
  in the source a throwing `toString()` is caught and becomes "Failed to cast value", so the
  model's promise that a String target always succeeds holds only under that assumption.
- Reflection.GetFieldNamesWithAnnotation: it requires that no unannotated declared field has a
  type assignable from `GenericDto` or `GenericEntity`. Only the non-recursive branch is
  modelled, because of what the code does there. Its recursive call passes `field.getClass()`
  as the instance, and that is the `Class` object `java.lang.reflect.Field.class`. The call then
  takes `getClass()` of it, so it walks the declared fields of `java.lang.Class`, not the
  nested object.
- Reflection.GetAllNestedFields: it requires that no domain class of the chain declares a
  field. The code recurses on `field.getDeclaringClass()`, which is the class being walked, and
  does not recurse into the field's type. So on any entity or DTO class that declares a field,
  it calls itself forever. `NestedFieldsDiverge` states this, and `NestedFieldsDivergeInChain` extends it to a class with such an ancestor. Because the code never recurses
  into a field's type, it never produces an `inner.x` entry for a field `x` of a nested entity
  type. The model follows the code.
- Reflection.GetFieldValuesWithAnnotation: the values of the model are finite trees, so an
  object graph in which an unannotated entity or DTO field leads back to an object already on
  the walk cannot be built. On such a graph the source keeps no visited set, recurses without
  end and fails with `StackOverflowError`; the termination of the model's walk holds of the
  model only. Aliasing between objects is not modelled either: nested values are snapshots.
- Reflection.AnnotatedValues: the same restriction to finite, acyclic values; the source does
  not return on a cyclic object graph.
- `HashMap` iteration order and hash order of property names are not modelled. Maps are
  Dafny maps, and a file's entries are listed in one fixed order.
- Crud: a `Sort` is an integer rank of each entity plus a direction, not a property name
  resolved by JPA. The order of rows with equal sort keys is not specified.
- Crud: identifiers are unbounded integers handed out by a counter, standing for a database
  identity column. `Long` overflow is not modelled.
- Crud.Updated: `mapper.updateEntity` is a parameter acting on the non-id attributes. That the
  mapper skips null DTO fields is mapper policy and is not modelled.
- Transactions (`@Transactional`), JPA flushing and the persistence context are not
  modelled. Each repository call takes effect at once.
- Rest: bean validation is a predicate parameter on the DTO. The path mapping and HTTP dispatch
  of Spring MVC are not modelled; the error handler's mapping of exceptions is `ErrorStatus`.
- `MutablePropertySources.addLast` is modelled as Spring implements it: the old source of the
  same name is removed, then the new one is appended.
- ConfigFiles: `ClassPathResource` path normalization (leading `/`, `..`, URL resolution) is
  not modelled. The classpath is a map keyed by the exact resolved path.
- ConfigFiles.LoadFile: each reader either returns properties or fails, and a failure answers
  false. Then the search goes on to the next candidate. In the source, `loadPropertiesFile`
  answers false only on an `IOException`, and `loadYamlFile` only when `getObject()` gives null.
  Any other exception from a reader, such as a malformed YAML document, escapes
  `loadConfigFiles` and the bean method and stops the search. The model has no such
  exceptional outcome.
- ConfigFiles: `FileUtil`'s `ConfigurationConstants.CONFIG_LOCATIONS` and `CONFIG_EXTENSIONS`
  are parameters. That constants file is not part of this model (the version present does not
  declare them), so the fixed values are those of `ApplicationConfiguration`.
- `FileUtil.createTempFolder`: it is file-system I/O and the delete-on-exit hook, outside the
  model.
- Logging (`log.info`, `log.warn`), threads, and the Tomcat, servlet, JPA, Hibernate and JDBC
  configuration classes are not modelled.
- AppConfig.NineCandidates and AppConfig.CandidatesAtLocation: they state the candidates
  structurally (location by location, then `application.` plus each extension). They do not
  spell out nine literal path strings.
