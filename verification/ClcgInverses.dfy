/** The multipliers are invertible: the value by which the generator runs backwards is computed as a power, and for the
    four moduli in use that power, found here by repeated squaring, is the inverse. */
module ClcgInverses {
  import opened ModularMath

  /** a to the power k modulo m. */
  function PowMod(a: nat, k: nat, m: nat): nat
    requires m > 0
    decreases k
  {
    if k == 0 then 1 % m
    else
      var r := PowMod(a * a % m, k / 2, m);
      if k % 2 == 0 then r else a * r % m
  }

  lemma {:induction false} PowModIsPow(a: nat, k: nat, m: nat)
    requires m > 0
    ensures PowMod(a, k, m) == Pow(a, k) % m
    decreases k
  {
    if k > 0 {
      var s := a * a % m;
      PowModIsPow(s, k / 2, m);
      CongruentMod(a * a, m);
      PowCongruent(s, a * a, k / 2, m);
      SameResidue(Pow(s, k / 2), Pow(a * a, k / 2), m);
      Halve(a, k);
      if k % 2 == 1 {
        MulMod(a, Pow(s, k / 2), m);
        MulMod(a, Pow(a * a, k / 2), m);
      }
    }
  }

  lemma Halve(a: int, k: nat)
    ensures Pow(a, k) == if k % 2 == 0 then Pow(a * a, k / 2) else a * Pow(a * a, k / 2)
  {
    PowOfProduct(a, a, k / 2);
    PowAdds(a, k / 2, k / 2);
  }

  /** One squaring for an even exponent: a squared is s, and s to half the power is r. */
  lemma Even(a: nat, k: nat, m: nat, s: nat, c: nat, r: nat)
    requires 0 < k && s < m && a * a == c * m + s && PowMod(s, k, m) == r
    ensures PowMod(a, 2 * k, m) == r
  {
    hide PowMod;
    SquareIs(a, m, s, c);
    EvenIs(a, k, m);
  }

  /** One for an odd exponent: the result is multiplied by a once more. */
  lemma Odd(a: nat, k: nat, m: nat, s: nat, c: nat, r: nat, d: nat, v: nat)
    requires s < m && a * a == c * m + s && PowMod(s, k, m) == r && v < m && a * r == d * m + v
    ensures PowMod(a, 2 * k + 1, m) == v
  {
    hide PowMod;
    SquareIs(a, m, s, c);
    CongruentBy(a * r, v, d, m);
    ResidueIs(a * r, v, m);
    OddIs(a, k, m);
  }

  lemma SquareIs(a: nat, m: nat, s: nat, c: nat)
    requires s < m && a * a == c * m + s
    ensures a * a % m == s
  {
    CongruentBy(a * a, s, c, m);
    ResidueIs(a * a, s, m);
  }

  lemma EvenIs(a: nat, k: nat, m: nat)
    requires k > 0 && m > 0
    ensures PowMod(a, 2 * k, m) == PowMod(a * a % m, k, m)
  {
    assert 2 * k / 2 == k && 2 * k % 2 == 0;
  }

  lemma OddIs(a: nat, k: nat, m: nat)
    requires m > 0
    ensures PowMod(a, 2 * k + 1, m) == a * PowMod(a * a % m, k, m) % m
  {
    assert (2 * k + 1) / 2 == k && (2 * k + 1) % 2 == 1;
  }

  lemma {:induction false} Upper0()
    ensures PowMod(684014882, 32767, 2147483647) == 612589354
  {
    hide PowMod;
    Zeroth(2115172081, 2147483647);
    Odd(2147437656, 0, 2147483647, 2115172081, 2147391665, 1, 0, 2147437656);
    Odd(1941454264, 1, 2147483647, 2147437656, 1755191320, 2147437656, 1941412685, 799502989);
    Odd(513865216, 3, 2147483647, 1941454264, 122961336, 799502989, 191310782, 295348670);
    Odd(837434338, 7, 2147483647, 513865216, 326566524, 295348670, 115174389, 1009913777);
    Odd(1576001433, 15, 2147483647, 837434338, 1156600433, 1009913777, 741158407, 889372112);
    Odd(1913335663, 31, 2147483647, 1576001433, 1704717688, 889372112, 792400622, 1949601822);
    Odd(1831962636, 63, 2147483647, 1913335663, 1562799839, 1949601822, 1663154780, 501640132);
    Odd(179682669, 127, 2147483647, 1831962636, 15034275, 501640132, 41972863, 885000947);
    Odd(499950346, 255, 2147483647, 179682669, 116392201, 885000947, 206034877, 593821243);
    Odd(1031996678, 511, 2147483647, 499950346, 495937254, 593821243, 285367272, 92829770);
    Odd(1549367460, 1023, 2147483647, 1031996678, 1117838326, 92829770, 66974863, 1904718839);
    Odd(541693858, 2047, 2147483647, 1549367460, 136640032, 1904718839, 480457440, 823707182);
    Odd(1167121563, 4095, 2147483647, 541693858, 634311113, 823707182, 447671121, 2128507179);
    Odd(1374269095, 8191, 2147483647, 1167121563, 879455146, 2128507179, 1362125219, 1616539312);
    Odd(684014882, 16383, 2147483647, 1374269095, 217871907, 1616539312, 514898890, 612589354);
  }

  lemma {:induction false} Inverse0()
    ensures PowMod(45991, 2147483645, 2147483647) == 1441196816 && 45991 * 1441196816 == 30865 * 2147483647 + 1
  {
    hide PowMod;
    Upper0();
    Odd(602202288, 32767, 2147483647, 684014882, 168870946, 612589354, 171783711, 389767935);
    Odd(932802926, 65535, 2147483647, 602202288, 405181804, 389767935, 169303580, 800421550);
    Odd(142454782, 131071, 2147483647, 932802926, 9449834, 800421550, 53096505, 1212998365);
    Odd(584425330, 262143, 2147483647, 142454782, 159047994, 1212998365, 330110532, 582115246);
    Odd(1405571282, 524287, 2147483647, 584425330, 919974702, 582115246, 381006148, 355503616);
    Odd(1845024642, 1048575, 2147483647, 1405571282, 1585165006, 355503616, 305433260, 740206252);
    Odd(742693738, 2097151, 2147483647, 1845024642, 256855966, 740206252, 255995685, 948786781);
    Odd(647559744, 4194303, 2147483647, 742693738, 195267434, 948786781, 286100490, 1341257034);
    Odd(1585608422, 8388607, 2147483647, 647559744, 1170744220, 1341257034, 990325794, 1359849630);
    Odd(215237933, 16777215, 2147483647, 1585608422, 21572861, 1359849630, 136294972, 13691906);
    Odd(838168039, 33554431, 2147483647, 215237933, 327139004, 13691906, 5343983, 1899846333);
    Odd(359490159, 67108863, 2147483647, 838168039, 60178886, 1899846333, 318035511, 1287948330);
    Odd(781727428, 134217727, 2147483647, 359490159, 284564575, 1287948330, 468839209, 1007880017);
    Odd(1615161307, 268435455, 2147483647, 781727428, 1214792043, 1007880017, 758044797, 305967560);
    Even(2115172081, 536870911, 2147483647, 1615161307, 2083346682, 305967560);
    Odd(45991, 1073741822, 2147483647, 2115172081, 0, 305967560, 6552, 1441196816);
  }

  lemma {:induction false} Upper1()
    ensures PowMod(2033168041, 32767, 2147483543) == 208047290
  {
    hide PowMod;
    Zeroth(1950301454, 2147483543);
    Odd(266826459, 0, 2147483543, 1950301454, 33153389, 1, 0, 266826459);
    Odd(1648255974, 1, 2147483543, 266826459, 1265084319, 266826459, 204797054, 1948133744);
    Odd(1499209525, 3, 2147483543, 1648255974, 1046633957, 1948133744, 1360038671, 1162620247);
    Odd(670272764, 7, 2147483543, 1499209525, 209205597, 1162620247, 362877140, 158145688);
    Odd(776132390, 15, 2147483543, 670272764, 280505752, 158145688, 57156196, 505151892);
    Odd(1561265121, 31, 2147483543, 776132390, 1135072157, 505151892, 367255913, 549819173);
    Odd(1764325027, 63, 2147483543, 1561265121, 1449530456, 549819173, 451719283, 950083002);
    Odd(1867495400, 127, 2147483543, 1764325027, 1624012011, 950083002, 826211517, 58626069);
    Odd(117767805, 255, 2147483543, 1867495400, 6458375, 58626069, 3215048, 791953481);
    Odd(2124599509, 511, 2147483543, 117767805, 2101959332, 791953481, 783514258, 2122584735);
    Odd(1297278778, 1023, 2147483543, 2124599509, 783676425, 2122584735, 1282237593, 2038821831);
    Odd(191408077, 2047, 2147483543, 1297278778, 17060457, 2038821831, 181722913, 963808228);
    Odd(962777667, 4095, 2147483543, 191408077, 431640484, 963808228, 432102513, 1632800517);
    Odd(1785415593, 8191, 2147483543, 962777667, 1484392674, 1632800517, 1357508658, 775246287);
    Odd(2033168041, 16383, 2147483543, 1785415593, 1924937816, 775246287, 733978139, 208047290);
  }

  lemma {:induction false} Inverse1()
    ensures PowMod(207707, 2147483541, 2147483543) == 1463744518 && 207707 * 1463744518 == 141575 * 2147483543 + 1
  {
    hide PowMod;
    Upper1();
    Odd(798921035, 32767, 2147483543, 2033168041, 297219888, 208047290, 77399129, 485711103);
    Odd(471319262, 65535, 2147483543, 798921035, 103442863, 485711103, 106601514, 1637281884);
    Odd(1023085540, 131071, 2147483543, 471319262, 487409566, 1637281884, 780019677, 850681749);
    Odd(172403449, 262143, 2147483543, 1023085540, 13840827, 850681749, 68294105, 957538286);
    Odd(1972185435, 524287, 2147483543, 172403449, 1811196832, 957538286, 879374869, 1798783543);
    Odd(366920045, 1048575, 2147483543, 1972185435, 62692130, 1798783543, 307340999, 1101139978);
    Odd(1297988534, 2097151, 2147483543, 366920045, 784534177, 1101139978, 665554374, 636345170);
    Odd(118012616, 4194303, 2147483543, 1297988534, 6485254, 636345170, 34969654, 1721260598);
    Odd(2109737338, 8388607, 2147483543, 118012616, 2072654596, 1721260598, 1691006091, 493547711);
    Even(1027814858, 16777215, 2147483543, 2109737338, 491926182, 493547711);
    Even(1282942288, 33554430, 2147483543, 1027814858, 766451002, 493547711);
    Odd(1335629912, 67108860, 2147483543, 1282942288, 830696592, 493547711, 306962578, 1238877578);
    Even(672207281, 134217721, 2147483543, 1335629912, 210414943, 1238877578);
    Odd(1799454621, 268435442, 2147483543, 672207281, 1507828520, 1238877578, 1038100613, 189676079);
    Even(192526989, 536870885, 2147483543, 1799454621, 17260500, 189676079);
    Odd(207707, 1073741770, 2147483543, 192526989, 20, 189676079, 18345, 1463744518);
  }

  lemma {:induction false} Upper2()
    ensures PowMod(1364256385, 32767, 2147483423) == 1925453235
  {
    hide PowMod;
    Zeroth(2142365223, 2147483423);
    Odd(1762727029, 0, 2147483423, 2142365223, 1446905966, 1, 0, 1762727029);
    Odd(988307005, 1, 2147483423, 1762727029, 454835052, 1762727029, 811235817, 1512176554);
    Odd(947077166, 3, 2147483423, 988307005, 417677337, 1512176554, 666895897, 1579750533);
    Odd(1071945624, 7, 2147483423, 947077166, 535076270, 1579750533, 788554012, 1950874516);
    Odd(1600954516, 15, 2147483423, 1071945624, 1193515784, 1950874516, 1454382060, 1980922876);
    Odd(752961617, 31, 2147483423, 1600954516, 264007251, 1980922876, 694561306, 973020054);
    Odd(2096556928, 63, 2147483423, 752961617, 2046838129, 973020054, 949945370, 466032602);
    Odd(1293721710, 127, 2147483423, 2096556928, 779384764, 466032602, 280754900, 1099166720);
    Odd(1538256968, 255, 2147483423, 1293721710, 1101863918, 1099166720, 787340590, 753665390);
    Odd(2034709771, 511, 2147483423, 1538256968, 1927858351, 753665390, 714087157, 862827279);
    Odd(1669156095, 1023, 2147483423, 2034709771, 1297370698, 862827279, 670642388, 683981381);
    Odd(1060795115, 2047, 2147483423, 1669156095, 524002310, 683981381, 337867151, 1767015942);
    Odd(1242918474, 4095, 2147483423, 1060795115, 719375207, 1767015942, 1022711856, 898749420);
    Odd(1767437400, 8191, 2147483423, 1242918474, 1454649162, 898749420, 739695273, 1297348521);
    Odd(1364256385, 16383, 2147483423, 1767437400, 866686775, 1297348521, 824181450, 1925453235);
  }

  lemma {:induction false} Inverse2()
    ensures PowMod(138556, 2147483421, 2147483423) == 499766181 && 138556 * 499766181 == 32245 * 2147483423 + 1
  {
    hide PowMod;
    Upper2();
    Odd(1502633997, 32767, 2147483423, 1364256385, 1051420888, 1925453235, 1347275354, 1613173553);
    Odd(1563641253, 65535, 2147483423, 1502633997, 1138529844, 1613173553, 1174595663, 699187460);
    Odd(1179219872, 131071, 2147483423, 1563641253, 647529797, 699187460, 383935791, 416312527);
    Odd(1007792465, 262143, 2147483423, 1179219872, 472946911, 416312527, 195371299, 1863232578);
    Odd(281462115, 524287, 2147483423, 1007792465, 36890120, 1863232578, 244206486, 1666700892);
    Odd(1489764380, 1048575, 2147483423, 281462115, 1033487795, 1666700892, 1156233195, 1631000475);
    Odd(1446224980, 2097151, 2147483423, 1489764380, 973961740, 1631000475, 1098398993, 29472461);
    Odd(676822375, 4194303, 2147483423, 1446224980, 213314115, 29472461, 9288835, 1869632670);
    Even(428955397, 8388607, 2147483423, 676822375, 85682958, 1869632670);
    Even(1696750612, 16777214, 2147483423, 428955397, 1340621589, 1869632670);
    Even(815383458, 33554428, 2147483423, 1696750612, 309595024, 1869632670);
    Odd(80600036, 67108856, 2147483423, 815383458, 3025106, 1869632670, 70171652, 1074251324);
    Odd(1824797805, 134217713, 2147483423, 80600036, 1550599643, 1074251324, 912831939, 1066096623);
    Odd(1933896825, 268435427, 2147483423, 1824797805, 1741553340, 1066096623, 960063697, 31327144);
    Even(2017897752, 536870855, 2147483423, 1933896825, 1896131673, 31327144);
    Odd(138556, 1073741710, 2147483423, 2017897752, 8, 31327144, 2021, 499766181);
  }

  lemma {:induction false} Upper3()
    ensures PowMod(590985300, 32767, 2147483323) == 545289187
  {
    hide PowMod;
    Zeroth(787402596, 2147483323);
    Odd(2111926305, 0, 2147483323, 787402596, 2076958023, 1, 0, 2111926305);
    Odd(923476923, 1, 2147483323, 2111926305, 397120488, 2111926305, 908186426, 1734185917);
    Odd(1199377003, 3, 2147483323, 923476923, 669856282, 1734185917, 968548945, 879522516);
    Odd(2111351808, 7, 2147483323, 1199377003, 2075828207, 879522516, 864724505, 856378813);
    Odd(1448595310, 15, 2147483323, 2111351808, 977157004, 856378813, 577674489, 845120083);
    Odd(2010521296, 31, 2147483323, 1448595310, 1882294422, 845120083, 791220079, 73545051);
    Odd(1500400986, 63, 2147483323, 2010521296, 1048298300, 73545051, 51384365, 135375391);
    Odd(390085761, 127, 2147483323, 1500400986, 70858245, 135375391, 24590650, 1642177601);
    Odd(1257301853, 255, 2147483323, 390085761, 736121176, 1642177601, 961457031, 838800640);
    Odd(619545583, 511, 2147483323, 1257301853, 178737932, 838800640, 241992673, 1973880741);
    Odd(185684300, 1023, 2147483323, 619545583, 16055379, 1973880741, 170673578, 1244326606);
    Odd(962661467, 2047, 2147483323, 185684300, 431536343, 1244326606, 557799570, 1807519892);
    Odd(573163415, 4095, 2147483323, 962661467, 152977346, 1807519892, 482427156, 1906831792);
    Odd(1622071921, 8191, 2147483323, 573163415, 1225209662, 1906831792, 1440299104, 1901469840);
    Odd(590985300, 16383, 2147483323, 1622071921, 162638573, 1901469840, 523282631, 545289187);
  }

  lemma {:induction false} Inverse3()
    ensures PowMod(49689, 2147483321, 2147483323) == 660421676 && 49689 * 660421676 == 15281 * 2147483323 + 1
  {
    hide PowMod;
    Upper3();
    Odd(1001003541, 32767, 2147483323, 590985300, 466596447, 545289187, 254174922, 936185361);
    Odd(1297992594, 65535, 2147483323, 1001003541, 784539165, 936185361, 565853830, 2008539344);
    Odd(206708287, 131071, 2147483323, 1297992594, 19896925, 2008539344, 193334086, 1717895950);
    Odd(1405600895, 262143, 2147483323, 206708287, 920013606, 1717895950, 1124421344, 571629138);
    Odd(331622508, 524287, 2147483323, 1405600895, 51210403, 571629138, 88273136, 960527176);
    Odd(1155004986, 1048575, 2147483323, 331622508, 621209256, 960527176, 516611079, 838964019);
    Odd(1898331684, 2097151, 2147483323, 1155004986, 1678086690, 838964019, 741627169, 1692475409);
    Even(1226213669, 4194303, 2147483323, 1898331684, 700168399, 1692475409);
    Odd(1852038271, 8388606, 2147483323, 1226213669, 1597239764, 1692475409, 1459629137, 721995588);
    Even(2066847428, 16777213, 2147483323, 1852038271, 1989239331, 721995588);
    Odd(1423661580, 33554426, 2147483323, 2066847428, 943808164, 721995588, 478642776, 430684392);
    Odd(228857023, 67108853, 2147483323, 1423661580, 24389263, 430684392, 45897980, 1196297476);
    Odd(1310758320, 134217707, 2147483323, 228857023, 800046899, 1196297476, 730183491, 209579727);
    Even(847026513, 268435415, 2147483323, 1310758320, 334090563, 209579727);
    Even(321513398, 536870830, 2147483323, 847026513, 48135817, 209579727);
    Odd(49689, 1073741660, 2147483323, 321513398, 1, 209579727, 4849, 660421676);
  }

  lemma Zeroth(a: nat, m: nat)
    requires m > 1
    ensures PowMod(a, 0, m) == 1
  {
  }
}
