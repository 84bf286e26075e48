# attributes_manager in Dafny

A model of the Ren'Py helper `attributes_manager`, which resolves the attribute
tokens of a shown image (`eileen happy -sad`) into a final set of tokens by
running user-registered callbacks.

- `Attributes` (`attributes.dfy`): the `attribute` value type, a string whose
  leading `-` marks a removed attribute; the constructor with its optional
  `added` override, and the `name` and `added` properties.
- `AttributeSets` (`attribute_sets.dfy`): the attribute `set` class, holding
  its contents in a field. `add` inserts one coerced attribute; the
  conjunctive `find` is a loop over the set with an early return; the three
  filters are loops over the set that build a fresh set through `add`. Each
  is proved against a specification function.
- `SetAlgebra` (`set_algebra.dfy`): the seventeen inherited set methods, all
  wrapped by one adapter that coerces operands and result to attribute sets.
- `Registration` (`registration.dfy`): the two stores of callbacks (a map from
  name to list that creates missing lists) and the decorator's `__init__` and
  `__call__`, which file a callback under an explicit or inferred name.
- `Composers` (`composers.dfy`): the adjuster list (each callback gets what
  the previous one returned) and the defaulter list (each callback gets the
  base tokens plus everything returned so far, and its result is added to an
  accumulator that starts as a plain empty set); both return the tag followed
  by the resulting tokens as plain strings.
- `Wrappers` (`wrappers.dfy`): `Option`, and `Result` for the `ValueError` and
  `TypeError` the module raises.

An attribute is modelled as its text (`string`): the class subclasses `str`
and compares by text. A callback is its `__name__` with an opaque total
function on attribute contents. Set iteration order is arbitrary in Python:
`find` and the filters visit elements by a nondeterministic choice, and the
returned tuples are specified only as "the tag, then each token once".

The model follows the code where a looser reading is possible:

- The suffixes stripped from function names are `_adjust_attributes` and
  `_default_attributes`, and an empty explicit name counts as no name
  (`self.name or …`).
- `removeprefix` strips one marker only, so `attribute("--x", added=True)` is
  `"-x"`, a removed attribute whose name is `"x"`; a name may itself start
  with a marker.
- Adjusters' results are not coerced back to an attribute set between
  callbacks, and the defaulters' accumulator is a plain set; content-wise
  coercion changes nothing, which the contract of `SetAlgebra.Wrapped` states.

## Model

| member | source | states |
|---|---|---|
| `Attributes.RemoveMarker` | attributes_manager_ren.py:36 | `removeprefix("-")` drops exactly one leading marker when there is one and otherwise returns the text unchanged |
| `Attributes.New` | attributes_manager_ren.py:31-37 | without `added` the text is kept verbatim; with `added=False` the result starts with a marker and keeps the name; with `added=True` at most one leading marker is removed |
| `Attributes.Name` | attributes_manager_ren.py:39-44 | the name is the text less its leading marker when it has one, and the whole text otherwise |
| `Attributes.Added` | attributes_manager_ren.py:46-52 | an added attribute is its own name; a removed one is the marker followed by its name |
| `Attributes.TextFromNameAndPolarity` | attributes_manager_ren.py:39-52 | an attribute's text is its name if it is added, and the marker followed by its name otherwise |
| `Attributes.InferredPolarity` | attributes_manager_ren.py:13-16 | `str(attribute(t)) == t`; `added` is false exactly when `t` starts with the marker; `name` is `t` minus that marker |
| `Attributes.ExplicitPolarity` | attributes_manager_ren.py:31-37 | an explicit `added=b` yields polarity `b` and keeps the name, provided (for `b` true) the name is non-empty and does not start with a marker itself |
| `Attributes.OneMarkerStripped` | attributes_manager_ren.py:35-36 | with `added=True`, a text with two leading markers keeps one and is still a removed attribute |
| `Attributes.ExplicitMatchesInferred` | attributes_manager_ren.py:18-23 | for a plain name `n`, `attribute(n, added=b)` equals `attribute(n)` or `attribute("-"+n)`, and `attribute("-"+n, added=b)` equals `attribute(n, added=b)` |
| `Attributes.DocumentedExamples` | attributes_manager_ren.py:12-23 | the documented examples: names and polarities of `"hello"` and `"-hello"`, and both normalisations |
| `AttributeSets.FromIterable` | attributes_manager_ren.py:60-61 | the set built from an iterable holds exactly its elements, coerced to attributes |
| `AttributeSets.Coerce` | attributes_manager_ren.py:134-135 | coercing a set to an attribute set returns the same contents: every string is already the attribute of its text |
| `AttributeSets.Contains` | attributes_manager_ren.py:98 | Python's `sub in text`: only a substring no longer than the text can occur, the empty string occurs in every text, and a text contains itself |
| `AttributeSets.ContainsAt` | attributes_manager_ren.py:98 | Python's substring test `sub in text` holds exactly when `sub` occurs at some position of `text` |
| `AttributeSets.Matches` | attributes_manager_ren.py:84 | the condition of `find`: an empty query matches everything, and a match meets each given criterion (name equal, polarity equal on a non-empty text) |
| `AttributeSets.FilterOrOf` | attributes_manager_ren.py:88-100 | the elements containing some substring form a subset of the set |
| `AttributeSets.FilterAndOf` | attributes_manager_ren.py:102-116 | the elements containing every substring form a subset of the set |
| `AttributeSets.FilterAddedOf` | attributes_manager_ren.py:118-126 | the elements of one polarity form a subset of the set |
| `AttributeSets.FilterWithoutSubstrings` | attributes_manager_ren.py:95-115 | `filter_or()` with no substring is empty and `filter_and()` with no substring is the whole set |
| `AttributeSets.FilterAddedPartition` | attributes_manager_ren.py:118-126 | `filter_added(True)` and `filter_added(False)` are disjoint and together give the whole set |
| `AttributeSets.FilterAndWithinFilterOr` | attributes_manager_ren.py:88-116 | with at least one substring, `filter_and` keeps a subset of what `filter_or` keeps |
| `AttributeSets.DocumentedOccurrences` | attributes_manager_ren.py:92-107 | which of `"hell"` and `"lo"` occur in `"hell"`, `"hello"`, `"love"` and `"bite"` |
| `AttributeSets.FilterOrExample` | attributes_manager_ren.py:92-93 | `{"hell","hello","love","bite"}.filter_or("hell","lo") == {"hell","hello","love"}` |
| `AttributeSets.FilterAndExample` | attributes_manager_ren.py:106-107 | `{"hell","hello","love","bite"}.filter_and("hell","lo") == {"hello"}` |
| `AttributeSets.AttrSet.constructor` | attributes_manager_ren.py:60-61 | a new attribute set holds the coerced elements of the iterable |
| `AttributeSets.AttrSet.Add` | attributes_manager_ren.py:63-64 | `add(value, added=…)` inserts `attribute(value, added=…)` and nothing else changes |
| `AttributeSets.AttrSet.Find` | attributes_manager_ren.py:66-86 | `ValueError` exactly when neither criterion is given; otherwise a returned element is in the set and meets every given criterion, and `None` means no element meets them; the polarity is read only off elements whose name criterion holds |
| `AttributeSets.AttrSet.FilterOr` | attributes_manager_ren.py:88-100 | returns a fresh set of exactly the elements containing at least one substring |
| `AttributeSets.AttrSet.FilterAnd` | attributes_manager_ren.py:102-116 | returns a fresh set of exactly the elements containing every substring (the loop stops at the first missing one) |
| `AttributeSets.AttrSet.FilterAdded` | attributes_manager_ren.py:118-126 | returns a fresh set of exactly the elements whose `added` equals the argument |
| `SetAlgebra.DifferenceAllMembers` | attributes_manager_ren.py:141 | `difference(*others)` keeps the elements of `self` in none of the others |
| `SetAlgebra.IntersectionAllMembers` | attributes_manager_ren.py:141 | `intersection(*others)` keeps the elements of `self` in all of the others |
| `SetAlgebra.UnionAllMembers` | attributes_manager_ren.py:141 | `union(*others)` holds the elements of `self` and of any of the others |
| `SetAlgebra.Builtin` | attributes_manager_ren.py:137-141 | the inherited set method, reflected forms with swapped operands: its result holds only elements of `self` or of the other operands |
| `SetAlgebra.Wrapped` | attributes_manager_ren.py:132-142 | the one adapter applied to every listed method: its contents equal the builtin method's on the operands' contents, and its result is an attribute set (a fixed point of coercion, which holds of every set once an attribute is modelled as its text) |
| `SetAlgebra.WrappedMembers` | attributes_manager_ren.py:137-142 | membership in each wrapped method's result, including reflected forms with swapped operands and in-place forms equal to their operators |
| `Registration.RemoveSuffix` | attributes_manager_ren.py:180 | `removesuffix` returns a prefix of the name |
| `Registration.RemoveSuffixInverse` | attributes_manager_ren.py:180 | removing a suffix undoes appending it; otherwise the name is returned whole or the suffix was stripped |
| `Registration.Key` | attributes_manager_ren.py:180 | a non-empty explicit name is the key; otherwise the key is a prefix of the function's name |
| `Registration.KeyChoice` | attributes_manager_ren.py:157-161 | a non-empty explicit name is the key; otherwise the function's name with the suffix removed once if it ends with it, else the whole name |
| `Registration.DocumentedKeys` | attributes_manager_ren.py:184-197 | sample instances of the documented naming template: `eileen_adjust_attributes` and `eileen_default_attributes` file under `eileen` in their own store only; an explicit name wins |
| `Registration.Registry.constructor` | attributes_manager_ren.py:231-232 | a store starts empty and keeps the suffix of its decorator class |
| `Registration.Registry.Entries` | attributes_manager_ren.py:181 | the list filed under a key, and the empty list for a key never used |
| `Registration.Registry.Append` | attributes_manager_ren.py:181 | appends the callback at the end of the key's list (an empty list on first use) and leaves every other key unchanged |
| `Registration.Registry.Call` | attributes_manager_ren.py:179-182 | files the callback under the decorator's key and returns it unchanged |
| `Registration.Registry.Decorate` | attributes_manager_ren.py:170-177 | no argument or a string is kept as the name with the store untouched; a function is registered at once under its inferred name; anything else raises `TypeError` and changes nothing |
| `Registration.RegistrationOrder` | attributes_manager_ren.py:179-182 | three callbacks registered under one name come back in registration order, and a rejected decorator argument raises `TypeError` |
| `Composers.Pipe` | attributes_manager_ren.py:214-216 | with no adjuster the set is returned unchanged, and a single adjuster is simply applied to it |
| `Composers.PipeSnoc` | attributes_manager_ren.py:214-216 | running one more adjuster applies it to the result of the chain before it |
| `Composers.PipeAppend` | attributes_manager_ren.py:151-153 | piping through two lists of adjusters is piping through the first, then the second on its output |
| `Composers.AccumulateFrom` | attributes_manager_ren.py:226-228 | running defaulters never removes a token from the accumulator it starts with |
| `Composers.Accumulate` | attributes_manager_ren.py:225-228 | the accumulator starts as the empty `set()`, and the first defaulter, called on the base alone, has its whole result kept |
| `Composers.DefaulterInput` | attributes_manager_ren.py:228 | every defaulter is called on a set containing all the base tokens, and the first on the base tokens alone |
| `Composers.AccumulateFromSnoc` | attributes_manager_ren.py:226-228 | one more defaulter adds its result, computed on the base joined with the accumulator, from any starting accumulator |
| `Composers.AccumulateSnoc` | attributes_manager_ren.py:226-228 | one more defaulter adds its result, computed on the base joined with the accumulator so far |
| `Composers.AccumulateGrows` | attributes_manager_ren.py:226-228 | the accumulator after a longer prefix of defaulters contains the one after a shorter prefix |
| `Composers.AccumulateMembers` | attributes_manager_ren.py:191-193 | a token is in the accumulator exactly when some defaulter returned it when called on the base plus all earlier results |
| `Composers.Flattens` | attributes_manager_ren.py:217 | a flattened tuple's tokens after the tag are, as a set, exactly the final set |
| `Composers.Flatten` | attributes_manager_ren.py:217 | the returned tuple is the tag followed by every token of the final set exactly once, as plain strings |
| `Composers.Adjust` | attributes_manager_ren.py:213-217 | returns the tag followed by the tokens of `f_k(…f_1(set(t1…tn)))`, callbacks in list order |
| `Composers.Default` | attributes_manager_ren.py:224-229 | returns the tag followed by the tokens of the accumulated union of the defaulters' results |
| `Composers.NoAdjusters` | attributes_manager_ren.py:213-217 | with no adjuster registered the resulting tokens are exactly the input tokens |
| `Composers.AdjusterOrderExample` | attributes_manager_ren.py:151-153 | the second adjuster sees the first one's output, and swapping them changes the result |
| `Composers.DefaulterExample` | attributes_manager_ren.py:191-193 | defaulters returning `{"blush"}` then `{"open_eyes"}` on base `{"happy"}` accumulate `{"blush","open_eyes"}`, the second being called on `{"happy","blush"}` |

## Left out

- Ren'Py wiring: the `renpy` imports, the `init python` markers, the stores being `config.adjust_attributes` and `config.default_attribute_callbacks`, and the replacement of those two dictionaries by dictionaries that create a callable list for a missing key, their existing entries copied over unchanged (lines 1-6, 168, 198, 200-203, 231-232). Each store is a `Registry` object; the host's lookup of a tag's list and its call are not part of this model.
- Python decorator mechanics: the runtime `isinstance`/`callable` dispatch is the `DecoratorArg` variant, and the bare form returning the decorator object instead of the function is not modelled.
- `__repr__` of both classes: text formatting only.
- Callback bodies are opaque total functions on contents: exceptions they raise, mutation of the set they are given, and results that are lists rather than sets are not modelled; a last adjuster returning a list with repeated strings would repeat output tokens, whereas the defaulters' `rv.update` drops repeats.
- In-place wrapped operators (`__isub__` and the others) also mutate `self` before returning a fresh copy; only the returned contents are modelled.
- `str` behaviour of `attribute` beyond the first character and substring containment.
- Keyword arguments of `add` other than `added`.
- Attributes.New: requires a non-empty text when `added=False`, where Python raises `IndexError` on `name[0]`.
- Attributes.Added: requires a non-empty text, where Python raises `IndexError` on `self[0]`.
- AttributeSets.AttrSet.Find: when `added` is given, requires every element whose name criterion holds to be non-empty, although Python raises `IndexError` only if it reaches such an element before returning a match.
- AttributeSets.AttrSet.FilterAdded: requires every element to be non-empty, where Python raises `IndexError` on the first empty one.
- SetAlgebra.Builtin: requires the operand count each builtin method accepts, where Python raises `TypeError`.
- Composers.Adjust and Composers.Default: require a non-empty token tuple, where Python raises `IndexError` on `name[0]`.
