# Money and Dog: a verified model of two C++ exercise classes

This project models two small classes from a collection of C++ exercises and proves what they do.

- `Money` is a value type from the operator-overloading exercises. It holds two `int`s, `dollars` and `cents`. It has two constructors. The first stores a `(dollars, cents)` pair verbatim. The second takes a total in cents and splits it with C++'s `total/100` and `total%100`. It also has const getters and field-wise `==` and `!=`.
- `Dog` is a class from the classes-and-objects exercise. It has a `name` and an `age`, setters that overwrite one field each, and getters. It also has `get_human_years()` (seven human years per dog year) and `speak()` (always `"Woof"`).

Files:

- `cpp_int.dfy` (module `CppInt`): the 32-bit `int` and C++'s `/` and `%`. C++11 rounds the quotient toward zero, so the remainder takes the sign of the dividend. Dafny's `/` and `%` are Euclidean, so the model defines `TruncDiv` and `TruncMod` itself. It proves the division identity, that the pair is unique, and where the two conventions agree and differ.
- `money.dfy` (module `Money`): the datatype `Money`, whose datatype constructor is the `(dollars, cents)` constructor. It also has `FromTotal` (the total-cents constructor), the getters, `Eq` and `Ne`, and lemmas about them. `Value(m)` is the amount a value denotes, `dollars * 100 + cents`. `SameSign(m)` is the form the total-cents constructor produces: `|cents| <= 99`, and `cents` never has the opposite sign to `dollars`.
- `dog.dfy` (module `Pets`): the class `Dog`. The setters `modifies` only the field they overwrite. The getters and `get_human_years()` are functions that read the object. `speak()` is a function that reads nothing. The second alternative class body's derived members are modelled beside the first's.

`int` is taken to be 32 bits wide. `Money`'s fields and `Dog`'s `age` are `Int32`, a subset type of `int`. `get_human_years()` requires that `age * 7` fits in an `Int32`, because signed overflow is undefined in C++.

The design intent is that `cents` should lie in 0..99. The code does not enforce this. `Money(1, 100)` is stored as given, and a negative total gives `cents` in -99..0, negative unless the total is a multiple of 100 (`Money(-150)` is `(-1, -50)`, `Money(-200)` is `(-2, 0)`). The model follows the code and states the ranges as conditions on the sign of the total (`FromTotal`). It proves that `Money(1, 100)` and `Money(2, 0)` compare unequal (`NoNormalisation`).

## Model

| member | source | states |
|---|---|---|
| `CppInt.TruncDiv` | 14_Operator_overloading/3_exercise/Money.cpp:5 | `total/100`: the quotient has the largest magnitude q with q·d ≤ abs(a), and it never has the opposite sign to the dividend (it rounds toward zero) |
| `CppInt.TruncMod` | 14_Operator_overloading/3_exercise/Money.cpp:5 | `total%100`: the remainder is below the divisor in magnitude and, when not zero, has the sign of the dividend |
| `CppInt.DivisionIdentity` | 14_Operator_overloading/3_exercise/Money.cpp:5 | (a/d)·d + a%d == a for every a and every positive d |
| `CppInt.TruncDivModUnique` | 14_Operator_overloading/3_exercise/Money.cpp:5 | any (q, r) that meets the identity, has abs(r) < d and has r on the dividend's side of zero is exactly (a/d, a%d) |
| `CppInt.TruncAgreesOnNonNegative` | 14_Operator_overloading/3_exercise/Money.cpp:5 | for a non-negative dividend, C++'s `/` and `%` agree with Euclidean division |
| `CppInt.TruncDiffersOnNegative` | 14_Operator_overloading/3_exercise/Money.cpp:5 | C++ gives -150/100 = -1 and -150%100 = -50, where Euclidean division gives -2 and 50 |
| `Money.FromTotal` | 14_Operator_overloading/3_exercise/Money.cpp:5 | `Money(total)` denotes exactly `total` cents. A total ≥ 0 gives dollars ≥ 0 and 0 ≤ cents ≤ 99. A total < 0 gives dollars ≤ 0 and -99 ≤ cents ≤ 0 |
| `Money.CarryDollars` | 14_Operator_overloading/3_exercise/Money.cpp:5 | a reference split that uses no division: it carries whole dollars out of the total one at a time, toward zero. The result denotes the total, with the same sign and cents ranges as `Money(total)` |
| `Money.FromTotalMatchesCarry` | 14_Operator_overloading/3_exercise/Money.cpp:5 | the getters of `Money(total)` return exactly the dollars and cents that carrying whole dollars gives |
| `Money.FromTotalIsSplit` | 14_Operator_overloading/3_exercise/Money.cpp:3-5 | `Money(total)` is field-wise `Money(total/100, total%100)` under C++ division, and equals the Euclidean split when total ≥ 0 |
| `Money.FromTotalSameSign` | 14_Operator_overloading/3_exercise/Money.cpp:5 | every `Money(total)` is in SameSign form |
| `Money.SameSignUnique` | 14_Operator_overloading/3_exercise/Money.cpp:5 | two SameSign values that denote the same amount are identical |
| `Money.FromTotalUnique` | 14_Operator_overloading/3_exercise/Money.cpp:5 | `Money(total)` is the only SameSign value that denotes `total` (a characterisation without division) |
| `Money.FromTotalOfValue` | 14_Operator_overloading/3_exercise/Money.cpp:3-5 | round trip: for a SameSign value whose amount fits in an `int`, `Money(amount)` gives that value back |
| `Money.Eq` | 14_Operator_overloading/3_exercise/Money.cpp:11-14 | `==` holds exactly when the two values are identical, that is, when both `dollars` and `cents` match |
| `Money.Ne` | 14_Operator_overloading/3_exercise/Money.cpp:16-18 | `!=`, written with swapped operands as `!(rhs == *this)`, is the exact negation of `lhs == rhs` |
| `Money.EqReflexiveSymmetric` | 14_Operator_overloading/3_exercise/Money.cpp:11-18 | `==` is reflexive and symmetric; symmetry is what lets `!=` swap its operands |
| `Money.EqIffSameValue` | 14_Operator_overloading/3_exercise/Money.cpp:11-14 | two SameSign values compare equal exactly when they denote the same amount |
| `Money.EqImpliesSameValue` | 14_Operator_overloading/3_exercise/Money.cpp:11-14 | values that compare equal denote the same amount |
| `Money.NoNormalisation` | 14_Operator_overloading/3_exercise/Money.cpp:3-14 | `Money(1,100)` and `Money(2,0)` both denote 200 cents, yet `!=` holds between them. `Money(200)` is `Money(2,0)`, not `Money(1,100)` |
| `Money.NegativeTotalExample` | 14_Operator_overloading/3_exercise/Money.cpp:5 | `Money(-150)` is `(-1, -50)`: dollars round toward zero and cents are negative |
| `Money.GetDollars` | 14_Operator_overloading/5_exercise/Money.h:13 | `get_dollars()` returns the stored dollars: with the stored cents it rebuilds the value (see also `GettersReturnFields`) |
| `Money.GetCents` | 14_Operator_overloading/5_exercise/Money.h:14 | `get_cents()` returns the stored cents: with the stored dollars it rebuilds the value (see also `GettersReturnFields`) |
| `Money.GettersReturnFields` | 14_Operator_overloading/5_exercise/Money.h:13-14 | `get_dollars()` and `get_cents()` return what the `(dollars, cents)` constructor stored, unchanged |
| `Money.GettersDetermine` | 14_Operator_overloading/5_exercise/Money.h:8-14 | a Money is exactly its two `int` fields: values with equal getters are equal |
| `Pets.Dog.constructor` | 13_OOP_classes_and_objects/7_exercise/Dog.h:6-9 | a Dog holds exactly the given name and age (the source has no constructor; see below) |
| `Pets.Dog.GetName` | 13_OOP_classes_and_objects/7_exercise/Dog.h:12 | `get_name()` returns the stored name and, as a function, changes nothing; `SetName` and `SetAge` state what it returns after each setter |
| `Pets.Dog.GetAge` | 13_OOP_classes_and_objects/7_exercise/Dog.h:14 | `get_age()` returns the stored age and, as a function, changes nothing; `SetAge` and `SetName` state what it returns after each setter |
| `Pets.Dog.SetName` | 13_OOP_classes_and_objects/7_exercise/Dog.h:12-13 | after `set_name(n)`, `get_name()` returns n and the age is unchanged. The frame allows only `name` to change |
| `Pets.Dog.SetAge` | 13_OOP_classes_and_objects/7_exercise/Dog.h:14-15 | after `set_age(a)`, `get_age()` returns a and the name is unchanged. The frame allows only `age` to change |
| `Pets.Dog.GetHumanYears` | 13_OOP_classes_and_objects/7_exercise/Dog.h:18-20 | when `age * 7` fits in an `int`, the result is a multiple of 7 whose seventh is the age. As a function it changes no field |
| `Pets.Dog.HumanYearsViaGetter` | 13_OOP_classes_and_objects/7_exercise/Dog.h:51-53 | the alternative body `get_age() * 7` gives a multiple of 7 whose seventh is the age |
| `Pets.Dog.Speak` | 13_OOP_classes_and_objects/7_exercise/Dog.h:22-24 | always `"Woof"`. It reads no field, so no state can change the result |
| `Pets.Dog.SpeakLiteral` | 13_OOP_classes_and_objects/7_exercise/Dog.h:55-57 | the alternative body also always returns `"Woof"` |
| `Pets.VariantsAgree` | 13_OOP_classes_and_objects/7_exercise/Dog.h:51-57 | both alternative class bodies give the same `get_human_years()` and `speak()` for every state |
| `Pets.AgeThenAsk` | 13_OOP_classes_and_objects/7_exercise/Dog.h:14-24 | after `set_age(a)`, `get_human_years()` is 7·a and `speak()` is `"Woof"`, whatever the earlier state was. The name is kept |
| `Pets.ThreeYearOldDog` | 13_OOP_classes_and_objects/7_exercise/Dog.h:15-24 | a dog whose age is set to 3 is 21 in human years and says `"Woof"` |

## Left out

- `operator+` (14_Operator_overloading/5_exercise/Money.h:20) is declared, but its body is not part of this model, so no behaviour is given to it. As a free function, it takes both operands by `const` reference and returns a new `Money`. Because `Money` is a datatype here, no operation can change an operand.
- `CppInt.TruncDiv`, `CppInt.TruncMod`: these model C++'s `/` and `%` only for a positive divisor. The model divides only by 100.
- The `Dog` constructor does not exist in the source. There, `age` is indeterminate until `set_age` is called and `name` starts empty. The model takes both initial values as constructor parameters and assumes no default.
- The exercise file `Dog.h` contains two class bodies separated by a non-code `OR` banner, and the include guard is repeated. Only one `Dog` class is modelled; the second body's derived members appear as `HumanYearsViaGetter` and `SpeakLiteral`.
- `#include <iostream>`, `#include <string>` and `using namespace std` are not modelled; they contribute nothing to the behaviour.
- The exercise-3 `Money.h`, which declares `operator==` and `operator!=`, is not part of this model. Their definitions in `Money.cpp` are modelled.
- A class invariant `0 <= cents <= 99` is not modelled, because the source does not maintain it. The ranges appear as conditional postconditions of `FromTotal`.
- `int` is modelled as exactly 32 bits. The C++ standard only gives a minimum width.
